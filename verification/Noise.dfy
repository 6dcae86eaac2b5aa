/** The encrypted stream between two sites: length-prefixed Noise transport messages (sections 3, 5.1
    and 13 of the Noise Protocol Framework, revision 34) over a byte stream that may take or give any
    number of bytes, or none, at each poll. */
module Noise {
  import opened Prelude

  const FRAME_LEN_SIZE := 2
  const MAX_NOISE_MSG := 65535
  const TAG_LEN := 16
  const MAX_PAYLOAD := MAX_NOISE_MSG - TAG_LEN

  /** One direction's cipher: `seal(n, p)` under nonce n, and its verification. */
  datatype Cipher = Cipher(seal: (nat, Bytes) -> Bytes, open: (nat, Bytes) -> Option<Bytes>)

  ghost predicate Sound(k: Cipher) {
    && (forall n: nat, p: Bytes :: |k.seal(n, p)| == |p| + TAG_LEN)
    && (forall n: nat, c: Bytes, p: Bytes :: k.open(n, c) == Some(p) <==> c == k.seal(n, p))
  }

  /** A length written as an unsigned 16-bit big-endian integer, higher bits lost. */
  function PutU16(n: nat): Bytes {
    [(n / 256 % 256) as Byte, (n % 256) as Byte]
  }

  function GetU16(b: Bytes): nat
    requires FRAME_LEN_SIZE <= |b|
  {
    256 * (b[0] as int) + b[1] as int
  }

  function Frame(k: Cipher, nonce: nat, payload: Bytes): Bytes {
    PutU16(|k.seal(nonce, payload)|) + k.seal(nonce, payload)
  }

  /** Consecutive frames under consecutive nonces. */
  function Frames(k: Cipher, nonce: nat, payloads: seq<Bytes>): Bytes
    decreases |payloads|
  {
    if payloads == [] then [] else Frame(k, nonce, payloads[0]) + Frames(k, nonce + 1, payloads[1..])
  }

  predicate HasFrame(b: Bytes) {
    FRAME_LEN_SIZE <= |b| && FRAME_LEN_SIZE + GetU16(b) <= |b|
  }

  /** In-order decryption of the complete frames at the front of a byte string. */
  function Deframe(k: Cipher, nonce: nat, b: Bytes): Bytes
    decreases |b|
  {
    if !HasFrame(b) then []
    else match k.open(nonce, b[FRAME_LEN_SIZE..FRAME_LEN_SIZE + GetU16(b)])
      case None => []
      case Some(p) => p + Deframe(k, nonce + 1, b[FRAME_LEN_SIZE + GetU16(b)..])
  }

  /** A payload cut into the pieces that fit one message. */
  function Pieces(buf: Bytes): seq<Bytes> {
    if buf == [] then [] else [buf[..Min(MAX_PAYLOAD, |buf|)]] + Pieces(buf[Min(MAX_PAYLOAD, |buf|)..])
  }

  predicate Small(payloads: seq<Bytes>) {
    forall i :: 0 <= i < |payloads| ==> |payloads[i]| <= MAX_PAYLOAD
  }

  lemma {:induction false} PiecesJoin(buf: Bytes)
    ensures Flatten(Pieces(buf)) == buf && Small(Pieces(buf))
  {
    if buf != [] {
      PiecesJoin(buf[Min(MAX_PAYLOAD, |buf|)..]);
    }
  }

  lemma {:induction false} FramesAppend(k: Cipher, nonce: nat, a: seq<Bytes>, b: seq<Bytes>)
    ensures Frames(k, nonce, a + b) == Frames(k, nonce, a) + Frames(k, nonce + |a|, b)
    decreases |a|
  {
    if a == [] {
      assert a + b == b;
    } else {
      assert (a + b)[1..] == a[1..] + b;
      FramesAppend(k, nonce + 1, a[1..], b);
    }
  }

  lemma FramesSnoc(k: Cipher, nonce: nat, a: seq<Bytes>, p: Bytes)
    ensures Frames(k, nonce, a + [p]) == Frames(k, nonce, a) + Frame(k, nonce + |a|, p)
  {
    FramesAppend(k, nonce, a, [p]);
    assert Frames(k, nonce + |a|, [p]) == Frame(k, nonce + |a|, p);
  }

  lemma PieceTaken(all: seq<Bytes>, done: seq<Bytes>, rest: Bytes, n: nat)
    requires rest != [] && n == Min(MAX_PAYLOAD, |rest|) && all == done + Pieces(rest)
    ensures all == done + [rest[..n]] + Pieces(rest[n..])
  {
    Assoc(done, [rest[..n]], Pieces(rest[n..]));
  }

  lemma PieceSealed(k: Cipher, nonce: nat, before: Bytes, done: seq<Bytes>, piece: Bytes)
    ensures before + Frames(k, nonce, done + [piece])
            == before + Frames(k, nonce, done) + Frame(k, nonce + |done|, piece)
  {
    FramesSnoc(k, nonce, done, piece);
    Assoc(before, Frames(k, nonce, done), Frame(k, nonce + |done|, piece));
  }

  // ── the poll functions ────────────────────────────────────────────────────

  /** What the inner stream answers to one poll. */
  datatype WriteOutcome = WriteBlocked | Takes(n: nat) | WriteFails
  datatype ReadOutcome = ReadBlocked | Gives(data: Bytes) | ReadFails

  datatype Error = Inner | WriteZero | InvalidData | UnexpectedEof
  datatype Poll<T> = Pending | Ready(value: T) | Failed(error: Error)

  datatype Refilled = Plaintext | Waiting | EndOfStream | ReadError | Rejected

  datatype Attempt = NeedMore | Opened(plain: Bytes) | Refused

  datatype End = End(readPlain: Bytes, readCipher: Bytes, writeCipher: Bytes, sendNonce: nat, recvNonce: nat)

  /** The write side sent `sent` and took in `payloads`, each sealed once under the next nonce. */
  ghost predicate Wrote(k: Cipher, e: End, e': End, sent: Bytes, payloads: seq<Bytes>) {
    && sent + e'.writeCipher == e.writeCipher + Frames(k, e.sendNonce, payloads)
    && e' == e.(writeCipher := e'.writeCipher, sendNonce := e.sendNonce + |payloads|)
  }

  /** The read side took `pulled` off the wire, opened `payloads` and handed out `delivered`. */
  ghost predicate Read(k: Cipher, e: End, e': End, pulled: Bytes, payloads: seq<Bytes>, delivered: Bytes) {
    && Small(payloads)
    && e.readCipher + pulled == Frames(k, e.recvNonce, payloads) + e'.readCipher
    && e.readPlain + Flatten(payloads) == delivered + e'.readPlain
    && e' == e.(readPlain := e'.readPlain, readCipher := e'.readCipher, recvNonce := e.recvNonce + |payloads|)
  }

  /** What the inner stream takes, poll by poll. */
  function Taken(script: seq<WriteOutcome>): nat {
    if script == [] then 0
    else Taken(script[..|script| - 1]) + if script[|script| - 1].Takes? then script[|script| - 1].n else 0
  }

  lemma TakenSnoc(script: seq<WriteOutcome>, k: nat)
    requires k < |script|
    ensures Taken(script[..k + 1]) == Taken(script[..k]) + if script[k].Takes? then script[k].n else 0
  {
    assert script[..k + 1][..k] == script[..k];
  }

  /** The inner stream had no more to say, or said it was blocked. */
  predicate Blocked(script: seq<WriteOutcome>, used: nat) {
    used == |script| || (0 < used <= |script| && script[used - 1].WriteBlocked?)
  }

  /** Draining the buffer and then sealing a payload is one write. */
  lemma WroteAfterDrain(k: Cipher, e: End, drained: End, e': End, sent: Bytes, more: Bytes, payloads: seq<Bytes>)
    requires drained == e.(writeCipher := []) && sent == e.writeCipher && Wrote(k, drained, e', more, payloads)
    ensures Wrote(k, e, e', sent + more, payloads)
  {
    Assoc(sent, more, e'.writeCipher);
    assert [] + Frames(k, e.sendNonce, payloads) == Frames(k, e.sendNonce, payloads);
  }

  class NoiseStream {
    const sending: Cipher
    const receiving: Cipher
    var readPlain: Bytes
    var readCipher: Bytes
    var writeCipher: Bytes
    var sendNonce: nat
    var recvNonce: nat

    ghost function View(): End
      reads this
    {
      End(readPlain, readCipher, writeCipher, sendNonce, recvNonce)
    }

    constructor (sending: Cipher, receiving: Cipher)
      ensures this.sending == sending && this.receiving == receiving
      ensures View() == End([], [], [], 0, 0)
    {
      this.sending, this.receiving := sending, receiving;
      readPlain, readCipher, writeCipher, sendNonce, recvNonce := [], [], [], 0, 0;
    }

    /** Hands buffered ciphertext to the wire until it is drained, blocked or broken. `script` is what
        the inner stream answers, poll by poll: as much leaves as the answers used take, and it stops short
        only for a reason. */
    method FlushWriteCipher(script: seq<WriteOutcome>) returns (r: Poll<()>, sent: Bytes, used: nat)
      modifies this`writeCipher
      ensures used <= |script| && sent + writeCipher == old(writeCipher)
      ensures |sent| == Min(Taken(script[..used]), |old(writeCipher)|)
      ensures r.Ready? <==> writeCipher == []
      ensures r.Pending? ==> used == |script| || (0 < used && script[used - 1].WriteBlocked?)
      ensures r.Failed? ==> 0 < used && r == Failed(if script[used - 1].WriteFails? then Inner else WriteZero)
      ensures r.Failed? ==> script[used - 1] == WriteFails || script[used - 1] == Takes(0)
    {
      sent, used := [], 0;
      while writeCipher != []
        invariant used <= |script| && sent + writeCipher == old(writeCipher)
        invariant |sent| == Min(Taken(script[..used]), |old(writeCipher)|)
        decreases |script| - used
      {
        if used == |script| {
          return Pending, sent, used;
        }
        TakenSnoc(script, used);
        match script[used]
        case WriteBlocked => return Pending, sent, used + 1;
        case WriteFails => return Failed(Inner), sent, used + 1;
        case Takes(n) =>
          used := used + 1;
          if n == 0 {
            return Failed(WriteZero), sent, used;
          }
          var taken := Min(n, |writeCipher|);
          sent := sent + writeCipher[..taken];
          writeCipher := writeCipher[taken..];
      }
      r := Ready(());
    }

    method SealChunk(chunk: Bytes)
      modifies this`writeCipher, this`sendNonce
      ensures writeCipher == old(writeCipher) + Frame(sending, old(sendNonce), chunk)
      ensures sendNonce == old(sendNonce) + 1
    {
      var sealed := sending.seal(sendNonce, chunk);
      sendNonce := sendNonce + 1;
      writeCipher := writeCipher + PutU16(|sealed|) + sealed;
    }

    /** Seals a payload into the write buffer, one frame per piece. */
    method EncryptAll(buf: Bytes)
      modifies this`writeCipher, this`sendNonce
      ensures writeCipher == old(writeCipher) + Frames(sending, old(sendNonce), Pieces(buf))
      ensures sendNonce == old(sendNonce) + |Pieces(buf)|
    {
      var rest := buf;
      ghost var done: seq<Bytes> := [];
      assert old(writeCipher) + [] == old(writeCipher);
      while rest != []
        invariant Pieces(buf) == done + Pieces(rest)
        invariant writeCipher == old(writeCipher) + Frames(sending, old(sendNonce), done)
        invariant sendNonce == old(sendNonce) + |done|
        decreases |rest|
      {
        var n := Min(MAX_PAYLOAD, |rest|);
        SealChunk(rest[..n]);
        PieceTaken(Pieces(buf), done, rest, n);
        PieceSealed(sending, old(sendNonce), old(writeCipher), done, rest[..n]);
        done := done + [rest[..n]];
        rest := rest[n..];
      }
      assert Pieces(buf) == done;
    }

    /** Seals a payload into the drained write buffer and sends what the inner stream takes. */
    method SealAndFlush(buf: Bytes, script: seq<WriteOutcome>) returns (r: Poll<nat>, sent: Bytes, used: nat)
      requires writeCipher == []
      modifies this`writeCipher, this`sendNonce
      ensures Wrote(sending, old(View()), View(), sent, Pieces(buf))
      ensures r == Ready(|buf|) || r.Failed?
      ensures used <= |script| && (r.Ready? && writeCipher != [] ==> Blocked(script, used))
      ensures r.Failed? ==> 0 < used && (script[used - 1] == WriteFails || script[used - 1] == Takes(0))
    {
      EncryptAll(buf);
      assert [] + Frames(sending, old(sendNonce), Pieces(buf)) == Frames(sending, old(sendNonce), Pieces(buf));
      var flushed;
      flushed, sent, used := FlushWriteCipher(script);
      r := if flushed.Failed? then Failed(flushed.error) else Ready(|buf|);
    }

    /** Takes the whole payload or none of it: blocked ciphertext is drained first, and a payload is
        sealed once even if the flush after it blocks. Only earlier ciphertext that the inner stream will not
        take makes it wait. */
    method PollWrite(buf: Bytes, script: seq<WriteOutcome>)
      returns (r: Poll<nat>, sent: Bytes, ghost payloads: seq<Bytes>, ghost used: nat)
      modifies this`writeCipher, this`sendNonce
      ensures Wrote(sending, old(View()), View(), sent, payloads)
      ensures payloads == [] || payloads == Pieces(buf)
      ensures r.Ready? ==> r.value == |buf| && payloads == Pieces(buf)
      ensures old(writeCipher) == [] ==> payloads == Pieces(buf) && !r.Pending?
      ensures used <= |script|
      ensures r.Pending? ==> payloads == [] && writeCipher != [] && Blocked(script, used)
      ensures r.Pending? ==> |sent| == Min(Taken(script[..used]), |old(writeCipher)|)
      ensures r.Ready? && writeCipher != [] ==> Blocked(script, used)
      ensures r.Failed? ==> 0 < used && (script[used - 1] == WriteFails || script[used - 1] == Takes(0))
    {
      var k := 0;
      sent := [];
      if writeCipher != [] {
        var drained;
        drained, sent, k := FlushWriteCipher(script);
        if drained.Pending? || drained.Failed? {
          assert old(writeCipher) + [] == old(writeCipher);
          return if drained.Pending? then Pending else Failed(drained.error), sent, [], k;
        }
      }
      assert sent == old(writeCipher);
      ghost var before := View();
      var more, m;
      r, more, m := SealAndFlush(buf, script[k..]);
      WroteAfterDrain(sending, old(View()), before, View(), sent, more, Pieces(buf));
      sent, payloads, used := sent + more, Pieces(buf), k + m;
    }

    method PollFlush(script: seq<WriteOutcome>, inner: Poll<()>) returns (r: Poll<()>, sent: Bytes, ghost used: nat)
      modifies this`writeCipher
      ensures Wrote(sending, old(View()), View(), sent, [])
      ensures r.Ready? ==> writeCipher == []
      ensures used <= |script| && |sent| == Min(Taken(script[..used]), |old(writeCipher)|)
      ensures writeCipher == [] ==> r == inner
      ensures writeCipher != [] ==> Blocked(script, used) || (0 < used && r.Failed?)
    {
      var k;
      r, sent, k := FlushWriteCipher(script);
      used := k;
      if r.Ready? {
        r := inner;
      }
    }

    /** Opens the first frame of the read buffer if all of it has arrived. */
    method TryDecryptOneFrame() returns (r: Attempt)
      requires Sound(receiving)
      modifies this`readCipher, this`recvNonce
      ensures r.NeedMore? <==> !HasFrame(old(readCipher))
      ensures r.NeedMore? ==> View() == old(View())
      ensures r.Opened? ==> Read(receiving, old(View()).(readPlain := []), View().(readPlain := []), [], [r.plain],
                                 r.plain)
      ensures r.Opened? ==> |readCipher| < |old(readCipher)|
      ensures r.Refused? ==>
          receiving.open(recvNonce, old(readCipher)[FRAME_LEN_SIZE..FRAME_LEN_SIZE + GetU16(old(readCipher))]).None?
      ensures r.Refused? ==> recvNonce == old(recvNonce)
    {
      if |readCipher| < FRAME_LEN_SIZE {
        return NeedMore;
      }
      var length := GetU16(readCipher);
      if |readCipher| < FRAME_LEN_SIZE + length {
        return NeedMore;
      }
      var ciphertext := readCipher[FRAME_LEN_SIZE..FRAME_LEN_SIZE + length];
      readCipher := readCipher[FRAME_LEN_SIZE + length..];
      match receiving.open(recvNonce, ciphertext)
      case None => r := Refused;
      case Some(plain) =>
        FrameOf(receiving, recvNonce, plain, old(readCipher));
        recvNonce := recvNonce + 1;
        r := Opened(plain);
    }

    /** Opens buffered frames until there is plaintext, no whole frame, or one that does not open. `left` is the
        ciphertext left after the opened frames. */
    method OpenBuffered() returns (r: Refilled, ghost payloads: seq<Bytes>, ghost left: Bytes)
      requires Sound(receiving)
      modifies this`readPlain, this`readCipher, this`recvNonce
      ensures Read(receiving, old(View()), View().(readCipher := left), [], payloads, [])
      ensures r.Plaintext? || r.Waiting? || r.Rejected?
      ensures r.Plaintext? <==> readPlain != []
      ensures r.Rejected? ==> Unopenable(receiving, recvNonce, left)
      ensures r.Waiting? ==> !HasFrame(left)
      ensures !r.Rejected? ==> left == readCipher
    {
      payloads, left := [], readCipher;
      ReadNothing(receiving, View());
      while readPlain == []
        invariant Read(receiving, old(View()), View(), [], payloads, []) && left == readCipher
        decreases readPlain == [], |readCipher|
      {
        ghost var before := View();
        var attempt := TryDecryptOneFrame();
        match attempt
        case Refused => return Rejected, payloads, left;
        case NeedMore => return Waiting, payloads, left;
        case Opened(plain) =>
          readPlain := plain;
          ReadMore(receiving, old(View()), before, View(), [], payloads, plain);
          payloads, left := payloads + [plain], readCipher;
      }
      r := Plaintext;
    }

    /** Opens frames and polls the wire until there is plaintext to hand out or there is a reason to
        stop. */
    method Refill(script: seq<ReadOutcome>)
      returns (r: Refilled, ghost pulled: Bytes, ghost payloads: seq<Bytes>, ghost left: Bytes, ghost used: nat)
      requires Sound(receiving)
      modifies this`readPlain, this`readCipher, this`recvNonce
      ensures used <= |script| && pulled == Given(script[..used])
      ensures Read(receiving, old(View()), View().(readCipher := left), pulled, payloads, [])
      ensures r.Plaintext? <==> readPlain != []
      ensures r.Rejected? ==> Unopenable(receiving, recvNonce, left)
      ensures !r.Rejected? ==> left == readCipher
      ensures !r.Plaintext? && !r.Rejected? ==> !HasFrame(left) && Reason(script, used, r)
    {
      pulled, payloads, left, used := [], [], readCipher, 0;
      var k := 0;
      ReadNothing(receiving, View());
      while true
        invariant used == k <= |script| && pulled == Given(script[..k]) && MoreGiven(script, k)
        invariant Read(receiving, old(View()), View(), pulled, payloads, [])
        decreases |script| - k
      {
        ghost var before, newly := View(), [];
        r, newly, left := OpenBuffered();
        ReadThen(receiving, old(View()), before, View().(readCipher := left), pulled, payloads, newly);
        payloads := payloads + newly;
        if !r.Waiting? || k == |script| {
          return;
        }
        GivenSnoc(script, k);
        used := k + 1;
        match script[k]
        case ReadBlocked => return;
        case ReadFails => r := ReadError; return;
        case Gives(data) =>
          if data == [] {
            r := EndOfStream;
            return;
          }
          ReadPulled(receiving, old(View()), View(), pulled, payloads, data);
          readCipher := readCipher + data;
          k, pulled := k + 1, pulled + data;
      }
    }

    /** Hands out plaintext, as much as there is room for, whenever there is any; else it has stopped at a
        partial frame for one of four reasons, or at a frame that does not open. An empty answer is an end of
        stream, and it and the mid-frame failure are told apart by whether a partial frame is left. */
    method PollRead(room: nat, script: seq<ReadOutcome>)
      returns (r: Poll<Bytes>, ghost pulled: Bytes, ghost payloads: seq<Bytes>, ghost left: Bytes, ghost used: nat)
      requires Sound(receiving)
      modifies this`readPlain, this`readCipher, this`recvNonce
      ensures used <= |script| && pulled == Given(script[..used])
      ensures Read(receiving, old(View()), View().(readCipher := left), pulled, payloads,
                   if r.Ready? then r.value else [])
      ensures var plain := old(readPlain) + Flatten(payloads);
              if plain != [] then r == Ready(plain[..Min(room, |plain|)]) && left == readCipher
              else StopsFor(receiving, script, used, recvNonce, left, r)
                   && (r != Failed(InvalidData) ==> left == readCipher)
    {
      var refilled;
      refilled, pulled, payloads, left, used := Refill(script);
      assert [] + readPlain == readPlain;
      match refilled
      case Waiting => r := Pending;
      case ReadError => r := Failed(Inner);
      case Rejected => r := Failed(InvalidData);
      case EndOfStream => r := if readCipher == [] then Ready([]) else Failed(UnexpectedEof);
      case Plaintext =>
        var n := Min(room, |readPlain|);
        ReadHandsOut(receiving, old(View()), View(), pulled, payloads, n);
        r := Ready(readPlain[..n]);
        readPlain := readPlain[n..];
    }
  }

  /** The answer before position k, if any, gave bytes. */
  ghost predicate MoreGiven(script: seq<ReadOutcome>, k: nat) {
    0 < k <= |script| ==> script[k - 1].Gives? && script[k - 1].data != []
  }

  /** What the last answer taken says about why the read stopped. */
  ghost predicate Reason(script: seq<ReadOutcome>, used: nat, r: Refilled) {
    match r
    case EndOfStream => AtEof(script, used)
    case ReadError => 0 < used <= |script| && script[used - 1].ReadFails?
    case Waiting =>
      || (0 < used <= |script| && script[used - 1].ReadBlocked?)
      || (used == |script| && MoreGiven(script, used))
    case _ => false
  }

  /** Opening buffered frames continues a read. */
  lemma ReadThen(k: Cipher, e0: End, e: End, e': End, pulled: Bytes, payloads: seq<Bytes>, more: seq<Bytes>)
    requires Read(k, e0, e, pulled, payloads, []) && Read(k, e, e', [], more, [])
    ensures Read(k, e0, e', pulled, payloads + more, [])
  {
    FramesAppend(k, e0.recvNonce, payloads, more);
    FlattenAppend(payloads, more);
    assert e.readCipher + [] == e.readCipher;
    Assoc(Frames(k, e0.recvNonce, payloads), Frames(k, e.recvNonce, more), e'.readCipher);
    Assoc(e0.readPlain, Flatten(payloads), Flatten(more));
    assert [] + e.readPlain == e.readPlain;
  }

  /** Why a read with no plaintext at hand answers as it does: a frame that does not open, or no whole frame and
      an inner stream that has no more for now, is blocked, has failed or has ended. */
  ghost predicate StopsFor(k: Cipher, script: seq<ReadOutcome>, used: nat, nonce: nat, left: Bytes, r: Poll<Bytes>) {
    if HasFrame(left) then Unopenable(k, nonce, left) && r == Failed(InvalidData)
    else if AtEof(script, used) then r == if left == [] then Ready([]) else Failed(UnexpectedEof)
    else if 0 < used <= |script| && script[used - 1].ReadFails? then r == Failed(Inner)
    else r == Pending && (used == |script| || (0 < used <= |script| && script[used - 1].ReadBlocked?))
  }

  /** The bytes the inner stream gave, poll by poll. */
  function Given(script: seq<ReadOutcome>): Bytes {
    if script == [] then []
    else Given(script[..|script| - 1]) + if script[|script| - 1].Gives? then script[|script| - 1].data else []
  }

  lemma GivenSnoc(script: seq<ReadOutcome>, k: nat)
    requires k < |script|
    ensures Given(script[..k + 1]) == Given(script[..k]) + if script[k].Gives? then script[k].data else []
  {
    assert script[..k + 1][..k] == script[..k];
  }

  /** The last answer taken was an end of stream. */
  predicate AtEof(script: seq<ReadOutcome>, used: nat) {
    0 < used <= |script| && script[used - 1] == Gives([])
  }

  /** The buffer starts with a whole frame that the cipher rejects. */
  ghost predicate Unopenable(k: Cipher, nonce: nat, b: Bytes) {
    HasFrame(b) && k.open(nonce, b[FRAME_LEN_SIZE..FRAME_LEN_SIZE + GetU16(b)]).None?
  }

  lemma ReadNothing(k: Cipher, e: End)
    ensures Read(k, e, e, [], [], [])
  {
    assert e.readCipher + [] == e.readCipher && e.readPlain + [] == e.readPlain;
  }

  lemma ReadPulled(k: Cipher, e0: End, e: End, pulled: Bytes, payloads: seq<Bytes>, data: Bytes)
    requires Read(k, e0, e, pulled, payloads, [])
    ensures Read(k, e0, e.(readCipher := e.readCipher + data), pulled + data, payloads, [])
  {
    var frames := Frames(k, e0.recvNonce, payloads);
    assert e0.readCipher + (pulled + data) == e0.readCipher + pulled + data;
    assert frames + (e.readCipher + data) == frames + e.readCipher + data;
  }

  lemma ReadHandsOut(k: Cipher, e0: End, e: End, pulled: Bytes, payloads: seq<Bytes>, n: nat)
    requires Read(k, e0, e, pulled, payloads, []) && n <= |e.readPlain|
    ensures Read(k, e0, e.(readPlain := e.readPlain[n..]), pulled, payloads, e.readPlain[..n])
  {
    assert e.readPlain[..n] + e.readPlain[n..] == [] + e.readPlain;
  }

  /** One more opened frame extends what a read has done. */
  lemma ReadMore(k: Cipher, e0: End, e: End, e': End, pulled: Bytes, payloads: seq<Bytes>, plain: Bytes)
    requires Read(k, e0, e, pulled, payloads, []) && e.readPlain == [] && e'.readPlain == plain
    requires Read(k, e.(readPlain := []), e'.(readPlain := []), [], [plain], plain)
    ensures Read(k, e0, e', pulled, payloads + [plain], [])
  {
    FramesAppend(k, e0.recvNonce, payloads, [plain]);
    FlattenSnoc(payloads, plain);
    assert e.readCipher + [] == e.readCipher;
  }

  lemma FrameOf(k: Cipher, nonce: nat, plain: Bytes, b: Bytes)
    requires HasFrame(b) && b[FRAME_LEN_SIZE..FRAME_LEN_SIZE + GetU16(b)] == k.seal(nonce, plain)
    ensures b == Frames(k, nonce, [plain]) + b[FRAME_LEN_SIZE + GetU16(b)..]
    ensures Flatten([plain]) == plain
    ensures Sound(k) ==> |plain| <= MAX_PAYLOAD
  {
    assert PutU16(GetU16(b)) == b[..FRAME_LEN_SIZE];
    assert Frames(k, nonce, [plain]) == Frame(k, nonce, plain);
  }
}
