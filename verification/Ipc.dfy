/**
 Messages between the front end and the emulator: framing, the send/receive token, and file
 transfer, as in src/frontends/common/uadeipc.c.
 */
module Ipc {

  import opened Bytes

  // ------------------------------------------------------------------------- messages

  const MAX_MESSAGE := 8 + 4096
  const MSG_LAST := 30
  const COMMAND_FILE := 5
  const COMMAND_FILE_DATA := 6
  const COMMAND_TOKEN := 19

  datatype Msg = Msg(kind: nat, data: seq<int>)

  /** valid_message */
  predicate Valid(m: Msg) { 0 < m.kind < MSG_LAST && 8 + |m.data| <= MAX_MESSAGE }

  /** What uade_send_message writes: type and size in network order, then the payload. */
  function Encode(m: Msg): seq<int> { Be32(m.kind) + Be32(|m.data|) + m.data }

  function EncodeAll(ms: seq<Msg>): seq<int> {
    if ms == [] then [] else Encode(ms[0]) + EncodeAll(ms[1..])
  }

  datatype State = Initial | R | S

  /** struct uade_ipc: the control state and what the input buffer holds. */
  datatype Peer = Peer(state: State, input: seq<int>)

  datatype Outcome = Got(m: Msg) | Closed | Failed

  // ---------------------------------------------------------------- sending, receiving

  /** uade_send_message: the peer afterwards, the bytes written, and whether it succeeded. */
  function Send(p: Peer, m: Msg): (Peer, seq<int>, bool) {
    if p.state.R? then (p, [], false)
    else
      var q := p.(state := S);
      if !Valid(m) then (q, [], false)
      else (if m.kind == COMMAND_TOKEN then q.(state := R) else q, Encode(m), true)
  }

  /** get_more: reads exactly the missing bytes; a stream that ends first loses what was read. */
  function GetMore(input: seq<int>, chan: seq<int>, bytes: nat): (seq<int>, seq<int>, bool) {
    if |input| >= bytes then (input, chan, true)
    else if bytes > MAX_MESSAGE then (input, chan, false)
    else if |chan| < bytes - |input| then (input, [], false)
    else (input + chan[..bytes - |input|], chan[bytes - |input|..], true)
  }

  /** The second half of uade_receive_message: the payload. */
  function ReceiveBody(input: seq<int>, chan: seq<int>, kind: nat, size: nat): (Peer, seq<int>, Outcome) {
    var (i, c, ok) := GetMore(input, chan, size);
    if !ok || |i| < size then (Peer(R, i), c, Failed)
    else (Peer(if kind == COMMAND_TOKEN then S else R, i[size..]), c, Got(Msg(kind, i[..size])))
  }

  /** uade_receive_message on the bytes that will still arrive: the peer and the bytes left. */
  function Receive(p: Peer, chan: seq<int>): (Peer, seq<int>, Outcome) {
    if p.state.S? then (p, chan, Failed)
    else
      var (h, c, ok) := GetMore(p.input, chan, 8);
      if !ok || |h| < 8 then (Peer(R, h), c, Closed)
      else
        var kind, size := FromBe32(h[..4]), FromBe32(h[4..8]);
        if !(0 < kind < MSG_LAST && 0 <= size && 8 + size <= MAX_MESSAGE) then (Peer(R, h[8..]), c, Failed)
        else ReceiveBody(h[8..], c, kind, size)
  }

  lemma GetMoreTakes(input: seq<int>, chan: seq<int>, bytes: nat, all: seq<int>)
    requires input + chan == all && bytes <= |all| && bytes <= MAX_MESSAGE
    ensures var (h, c, ok) := GetMore(input, chan, bytes);
            ok && h + c == all && |h| >= bytes && h[..bytes] == all[..bytes] && h[bytes..] + c == all[bytes..]
  {
    var (h, c, ok) := GetMore(input, chan, bytes);
    assert h + c == all;
    assert h[..bytes] == (h + c)[..bytes];
    assert h[bytes..] + c == (h + c)[bytes..];
  }

  lemma BodyDecodes(input: seq<int>, chan: seq<int>, m: Msg, rest: seq<int>)
    requires Valid(m) && input + chan == m.data + rest
    ensures var (q, c, o) := ReceiveBody(input, chan, m.kind, |m.data|);
            o == Got(m) && q.input + c == rest && q.state == if m.kind == COMMAND_TOKEN then S else R
  {
    hide GetMore;
    var all := m.data + rest;
    GetMoreTakes(input, chan, |m.data|, all);
    assert all[..|m.data|] == m.data && all[|m.data|..] == rest;
  }

  /** However the next message is divided between the buffer and the stream, it is decoded, and
      exactly the bytes after it are left. */
  lemma Decodes(p: Peer, chan: seq<int>, m: Msg, rest: seq<int>)
    requires !p.state.S? && Valid(m) && p.input + chan == Encode(m) + rest
    ensures var (q, c, o) := Receive(p, chan);
            o == Got(m) && q.input + c == rest && q.state == if m.kind == COMMAND_TOKEN then S else R
  {
    var all := Encode(m) + rest;
    assert all[..4] == Be32(m.kind) && all[4..8] == Be32(|m.data|) && all[8..] == m.data + rest;
    GetMoreTakes(p.input, chan, 8, all);
    Be32RoundTrip(m.kind);
    Be32RoundTrip(|m.data|);
    hide Be32, FromBe32, GetMore, ReceiveBody, Encode;
    var (h, c, ok) := GetMore(p.input, chan, 8);
    assert h[..4] == h[..8][..4] == all[..8][..4] == all[..4];
    assert h[4..8] == h[..8][4..] == all[..8][4..] == all[4..8];
    BodyDecodes(h[8..], c, m, rest);
  }

  function ReceiveAll(p: Peer, chan: seq<int>, n: nat): (Peer, seq<int>, seq<Msg>)
    decreases n
  {
    if n == 0 then (p, chan, [])
    else
      var (q, c, o) := Receive(p, chan);
      if !o.Got? then (q, c, [])
      else
        var (r, d, ms) := ReceiveAll(q, c, n - 1);
        (r, d, [o.m] + ms)
  }

  /** Any sequence of valid messages, a token at most at its end, comes out message for message. */
  lemma {:induction false} DecodesAll(p: Peer, chan: seq<int>, ms: seq<Msg>)
    requires !p.state.S? && p.input + chan == EncodeAll(ms)
    requires (forall m :: m in ms ==> Valid(m)) && forall i :: 0 <= i < |ms| - 1 ==> ms[i].kind != COMMAND_TOKEN
    ensures var (q, c, got) := ReceiveAll(p, chan, |ms|);
            got == ms && q.input + c == []
    decreases |ms|
  {
    hide Encode, Receive;
    if ms != [] {
      Decodes(p, chan, ms[0], EncodeAll(ms[1..]));
      var (q, c, o) := Receive(p, chan);
      if |ms| > 1 {
        assert ms[0].kind != COMMAND_TOKEN;
        forall i | 0 <= i < |ms[1..]| - 1 ensures ms[1..][i].kind != COMMAND_TOKEN {
          assert ms[1..][i] == ms[i + 1];
        }
        DecodesAll(q, c, ms[1..]);
      } else {
        assert EncodeAll(ms[1..]) == [];
      }
    }
  }

  // --------------------------------------------------------------------- two peers

  /** Two peers and the bytes under way to each.  `toA` and `toB` record which messages these
      bytes are, the receiver's buffer included. */
  datatype Link = Link(a: Peer, b: Peer, chanA: seq<int>, chanB: seq<int>, toA: seq<Msg>, toB: seq<Msg>)

  datatype Step = SendA(m: Msg) | SendB(m: Msg) | ReceiveA | ReceiveB

  function Do(l: Link, s: Step): Link {
    match s
    case SendA(m) =>
      var (p, out, ok) := Send(l.a, m);
      l.(a := p, chanB := l.chanB + out, toB := if ok then l.toB + [m] else l.toB)
    case SendB(m) =>
      var (p, out, ok) := Send(l.b, m);
      l.(b := p, chanA := l.chanA + out, toA := if ok then l.toA + [m] else l.toA)
    case ReceiveA =>
      var (p, c, o) := Receive(l.a, l.chanA);
      l.(a := p, chanA := c, toA := if o.Got? && l.toA != [] then l.toA[1..] else l.toA)
    case ReceiveB =>
      var (p, c, o) := Receive(l.b, l.chanB);
      l.(b := p, chanB := c, toB := if o.Got? && l.toB != [] then l.toB[1..] else l.toB)
  }

  /** A's first operation is a send and B's a receive.  A receive with nothing under way waits, so
      it is no step. */
  predicate Allowed(l: Link, s: Step) {
    match s
    case SendA(_) => true
    case SendB(_) => !l.b.state.Initial?
    case ReceiveA => !l.a.state.Initial? && (l.a.state.S? || l.toA != [])
    case ReceiveB => l.b.state.S? || l.toB != []
  }

  const START := Link(Peer(Initial, []), Peer(Initial, []), [], [], [], [])

  predicate NoToken(ms: seq<Msg>) { forall i :: 0 <= i < |ms| ==> ms[i].kind != COMMAND_TOKEN }

  /** The token is under way: it is the last message in the channel. */
  predicate TokenIn(ms: seq<Msg>) {
    ms != [] && ms[|ms| - 1].kind == COMMAND_TOKEN && NoToken(ms[..|ms| - 1])
  }

  predicate HeldByA(l: Link) {
    !l.a.state.R? && !l.b.state.S? && l.toA == [] && NoToken(l.toB)
  }

  predicate UnderWayToB(l: Link) {
    l.a.state.R? && !l.b.state.S? && l.toA == [] && TokenIn(l.toB)
  }

  predicate HeldByB(l: Link) {
    l.a.state.R? && l.b.state.S? && l.toB == [] && NoToken(l.toA)
  }

  predicate UnderWayToA(l: Link) {
    l.a.state.R? && l.b.state.R? && l.toB == [] && TokenIn(l.toA)
  }

  /** The bytes are those of the recorded messages, and the token is in exactly one place. */
  predicate Inv(l: Link) {
    && l.a.input + l.chanA == EncodeAll(l.toA) && l.b.input + l.chanB == EncodeAll(l.toB)
    && (forall m :: m in l.toA ==> Valid(m)) && (forall m :: m in l.toB ==> Valid(m))
    && (HeldByA(l) || UnderWayToB(l) || HeldByB(l) || UnderWayToA(l))
  }

  lemma {:induction false} EncodeSnoc(ms: seq<Msg>, m: Msg)
    ensures EncodeAll(ms + [m]) == EncodeAll(ms) + Encode(m)
  {
    hide Encode;
    if ms == [] {
      assert [] + [m] == [m] && [m][1..] == [];
      assert EncodeAll([m]) == Encode(m) + [] == Encode(m);
    } else {
      assert (ms + [m])[1..] == ms[1..] + [m];
      EncodeSnoc(ms[1..], m);
    }
  }

  lemma SendKeeps(l: Link, s: Step)
    requires Inv(l) && Allowed(l, s) && (s.SendA? || s.SendB?)
    ensures Inv(Do(l, s))
  {
    hide Encode, EncodeAll, Valid;
    var r := Do(l, s);
    if s.SendA? && !l.a.state.R? && Valid(s.m) {
      EncodeSnoc(l.toB, s.m);
      assert r.toB == l.toB + [s.m] && r.toB[..|r.toB| - 1] == l.toB;
      assert l.b.input + (l.chanB + Encode(s.m)) == (l.b.input + l.chanB) + Encode(s.m);
    } else if s.SendB? && !l.b.state.R? && Valid(s.m) {
      EncodeSnoc(l.toA, s.m);
      assert r.toA == l.toA + [s.m] && r.toA[..|r.toA| - 1] == l.toA;
      assert l.a.input + (l.chanA + Encode(s.m)) == (l.a.input + l.chanA) + Encode(s.m);
    }
  }

  lemma ReceiveKeeps(l: Link, s: Step)
    requires Inv(l) && Allowed(l, s) && (s.ReceiveA? || s.ReceiveB?)
    ensures Inv(Do(l, s))
  {
    if s.ReceiveA? {
      ReceiveAKeeps(l);
    } else {
      ReceiveBKeeps(l);
    }
    hide *;
  }

  lemma ReceiveAKeeps(l: Link)
    requires Inv(l) && Allowed(l, ReceiveA)
    ensures Inv(Do(l, ReceiveA))
  {
    hide Encode, Receive, Valid;
    if l.a.state.S? {
      Forbidden(l.a, l.chanA);
    } else {
      Decodes(l.a, l.chanA, l.toA[0], EncodeAll(l.toA[1..]));
      TakeFirst(l.toA);
    }
  }

  lemma ReceiveBKeeps(l: Link)
    requires Inv(l) && Allowed(l, ReceiveB)
    ensures Inv(Do(l, ReceiveB))
  {
    hide Encode, Receive, Valid;
    if l.b.state.S? {
      Forbidden(l.b, l.chanB);
    } else {
      Decodes(l.b, l.chanB, l.toB[0], EncodeAll(l.toB[1..]));
      TakeFirst(l.toB);
    }
  }

  /** Receiving in S state is a protocol error that changes nothing. */
  lemma Forbidden(p: Peer, chan: seq<int>)
    requires p.state.S?
    ensures Receive(p, chan) == (p, chan, Failed)
  {
  }

  lemma TakeFirst(ms: seq<Msg>)
    requires ms != []
    ensures NoToken(ms) ==> NoToken(ms[1..]) && ms[0].kind != COMMAND_TOKEN
    ensures TokenIn(ms) ==> if |ms| == 1 then ms[0].kind == COMMAND_TOKEN && ms[1..] == []
                            else TokenIn(ms[1..]) && ms[0].kind != COMMAND_TOKEN
  {
    assert forall i :: 0 <= i < |ms[1..]| ==> ms[1..][i] == ms[i + 1];
    if |ms| > 1 {
      var n := |ms| - 1;
      assert ms[..n][1..] == ms[1..][..n - 1];
      assert ms[..n][0] == ms[0];
      assert forall i :: 0 <= i < n - 1 ==> ms[..n][1..][i] == ms[..n][i + 1];
    }
  }

  function Run(l: Link, steps: seq<Step>): Link {
    if steps == [] then l else Do(Run(l, steps[..|steps| - 1]), steps[|steps| - 1])
  }

  predicate RunAllowed(l: Link, steps: seq<Step>) {
    steps == [] ||
    (RunAllowed(l, steps[..|steps| - 1]) && Allowed(Run(l, steps[..|steps| - 1]), steps[|steps| - 1]))
  }

  lemma {:induction false} RunKeeps(steps: seq<Step>)
    requires RunAllowed(START, steps)
    ensures Inv(Run(START, steps))
  {
    hide Do, Allowed, Inv;
    if steps == [] {
      StartIsOk();
    } else {
      var l, s := Run(START, steps[..|steps| - 1]), steps[|steps| - 1];
      RunKeeps(steps[..|steps| - 1]);
      if s.SendA? || s.SendB? {
        SendKeeps(l, s);
      } else {
        ReceiveKeeps(l, s);
      }
    }
  }

  lemma StartIsOk()
    ensures Inv(START)
  {
  }

  function One(b: bool): nat { if b then 1 else 0 }

  /** Over any run: the token is in exactly one of four places, a peer that may send has nothing
      coming in, and the two are never both waiting for each other. */
  lemma TokenIsUnique(steps: seq<Step>)
    requires RunAllowed(START, steps)
    ensures var l := Run(START, steps);
            && One(HeldByA(l)) + One(UnderWayToB(l)) + One(HeldByB(l)) + One(UnderWayToA(l)) == 1
            && !(l.a.state.S? && l.b.state.S?)
            && (l.a.state.S? ==> l.a.input + l.chanA == []) && (l.b.state.S? ==> l.b.input + l.chanB == [])
            && (l.a.state.R? && l.b.state.R? ==> l.toA != [] || l.toB != [])
  {
    RunKeeps(steps);
    hide Valid;
    var l := Run(START, steps);
    hide Run, RunAllowed;
  }

  /** The proviso is needed: if both begin by sending, both are in S state. */
  lemma BothMayNotSendFirst(m: Msg)
    requires Valid(m) && m.kind != COMMAND_TOKEN
    ensures var l := Do(Do(START, SendA(m)), SendB(m));
            l.a.state.S? && l.b.state.S? && l.toA != [] && l.toB != []
  {
  }

  // -------------------------------------------------------------------- file transfer

  const NAME_SIZE := 4000
  const CHUNK := 4096
  const NO_FILE := 0xFFFF_FFFF

  datatype Option<T> = None | Some(value: T)

  /** struct uade_file; a name is a C string. */
  datatype File = File(name: Option<seq<int>>, data: seq<int>)

  predicate IsCString(s: seq<int>) { forall i :: 0 <= i < |s| ==> s[i] != 0 }

  /** meta.filename after strlcpy into a buffer of zeros. */
  function NameField(name: Option<seq<int>>): (s: seq<int>)
    ensures |s| == NAME_SIZE
  {
    var n := if name.None? then [] else name.value;
    seq(NAME_SIZE, i requires 0 <= i < NAME_SIZE => if i < |n| && i < NAME_SIZE - 1 then n[i] else 0)
  }

  /** The first message of a file.  Its declared size is that of the name alone, so the last four
      bytes of the name field are not sent; the file size is cut to 32 bits. */
  function Meta(f: Option<File>): Msg {
    if f.None? then Msg(COMMAND_FILE, (Be32(NO_FILE) + NameField(None))[..NAME_SIZE])
    else Msg(COMMAND_FILE, (Be32(|f.value.data| % 0x1_0000_0000) + NameField(f.value.name))[..NAME_SIZE])
  }

  function Chunks(data: seq<int>): seq<Msg> {
    if data == [] then []
    else if |data| <= CHUNK then [Msg(COMMAND_FILE_DATA, data)]
    else [Msg(COMMAND_FILE_DATA, data[..CHUNK])] + Chunks(data[CHUNK..])
  }

  /** The messages of uade_send_file. */
  function FileMessages(f: Option<File>): seq<Msg> {
    [Meta(f)] + if f.None? then [] else Chunks(f.value.data)
  }

  /** The string up to the first zero, if there is one. */
  function CString(s: seq<int>): Option<seq<int>> {
    if s == [] then None
    else if s[0] == 0 then Some([])
    else
      var r := CString(s[1..]);
      if r.None? then None else Some([s[0]] + r.value)
  }

  /** The data loop of uade_receive_file: the bytes and the messages left, or nothing. */
  function Collect(ms: seq<Msg>, size: nat): Option<(seq<int>, seq<Msg>)>
    decreases |ms|
  {
    if size == 0 then Some(([], ms))
    else if ms == [] || ms[0].kind != COMMAND_FILE_DATA || |ms[0].data| > size then None
    else
      var r := Collect(ms[1..], size - |ms[0].data|);
      if r.None? then None else Some((ms[0].data + r.value.0, r.value.1))
  }

  datatype Reply = Missing | Received(f: File) | Error

  /** uade_receive_file on the coming messages.  `stale` is what the message buffer held before:
      bytes that a message does not fill keep their old values. */
  function FromMessages(ms: seq<Msg>, stale: seq<int>): (Reply, seq<Msg>)
    requires |stale| == CHUNK && forall m :: m in ms ==> Valid(m)
  {
    if ms == [] || ms[0].kind != COMMAND_FILE then (Error, ms)
    else
      assert Valid(ms[0]);
      var area := ms[0].data + stale[|ms[0].data|..];
      var filesize := FromBe32(area[..4]);
      if filesize == NO_FILE then (Missing, ms[1..])
      else
        var name := CString(area[4..4 + NAME_SIZE]);
        if name.None? || filesize < 0 then (Error, ms[1..])
        else
          var r := Collect(ms[1..], filesize);
          if r.None? then (Error, [])
          else (Received(File(if name.value == [] then None else name, r.value.0)), r.value.1)
  }

  lemma {:induction false} ChunksCollect(data: seq<int>, rest: seq<Msg>)
    ensures Collect(Chunks(data) + rest, |data|) == Some((data, rest))
    ensures forall m :: m in Chunks(data) ==> Valid(m)
    decreases |data|
  {
    if data == [] {
      assert [] + rest == rest;
    } else if |data| <= CHUNK {
      var m := Msg(COMMAND_FILE_DATA, data);
      assert ([m] + rest)[1..] == rest;
      assert data + [] == data;
    } else {
      var m := Msg(COMMAND_FILE_DATA, data[..CHUNK]);
      ChunksCollect(data[CHUNK..], rest);
      assert ([m] + Chunks(data[CHUNK..]) + rest)[1..] == Chunks(data[CHUNK..]) + rest;
      assert data[..CHUNK] + data[CHUNK..] == data;
    }
  }

  lemma {:induction false} CStringStops(s: seq<int>, n: nat)
    requires n < |s| && s[n] == 0 && forall i :: 0 <= i < n ==> s[i] != 0
    ensures CString(s) == Some(s[..n])
  {
    if n > 0 {
      CStringStops(s[1..], n - 1);
      assert [s[0]] + s[1..][..n - 1] == s[..n];
    }
  }

  lemma {:induction false} CStringRuns(s: seq<int>)
    requires forall i :: 0 <= i < |s| ==> s[i] != 0
    ensures CString(s) == None
  {
    if s != [] {
      CStringRuns(s[1..]);
    }
  }

  /** When the file comes back as it was, whatever the receiver's buffer held before. */
  predicate Transferable(f: File) {
    |f.data| < NO_FILE && (f.name.None? || 1 <= |f.name.value| <= NAME_SIZE - 5)
  }

  lemma MessagesAreValid(f: Option<File>)
    ensures forall m :: m in FileMessages(f) ==> Valid(m)
  {
    if f.Some? {
      ChunksCollect(f.value.data, []);
    }
  }

  function Sent(f: File, rest: seq<Msg>): seq<Msg> { FileMessages(Some(f)) + rest }

  /** The receive buffer after the first message. */
  function MetaArea(f: File, stale: seq<int>): (s: seq<int>)
    requires |stale| == CHUNK
    ensures |s| == CHUNK
  {
    Meta(Some(f)).data + stale[NAME_SIZE..]
  }

  lemma MetaAreaIs(f: File, stale: seq<int>)
    requires |stale| == CHUNK
    ensures FromBe32(MetaArea(f, stale)[..4]) == |f.data| % 0x1_0000_0000
    ensures MetaArea(f, stale)[4..4 + NAME_SIZE] == NameField(f.name)[..NAME_SIZE - 4] + stale[NAME_SIZE..NAME_SIZE + 4]
  {
    var size := |f.data| % 0x1_0000_0000;
    Be32RoundTrip(size);
    hide Be32, FromBe32, NameField;
    assert MetaArea(f, stale)[..4] == Be32(size);
  }

  lemma FromSent(f: File, rest: seq<Msg>, stale: seq<int>)
    requires |stale| == CHUNK && forall m :: m in rest ==> Valid(m)
    ensures forall m :: m in Sent(f, rest) ==> Valid(m)
    ensures var size, name := |f.data| % 0x1_0000_0000, CString(MetaArea(f, stale)[4..4 + NAME_SIZE]);
            FromMessages(Sent(f, rest), stale) ==
            if size == NO_FILE then (Missing, Chunks(f.data) + rest)
            else if name.None? then (Error, Chunks(f.data) + rest)
            else
              var r := Collect(Chunks(f.data) + rest, size);
              if r.None? then (Error, [])
              else (Received(File(if name.value == [] then None else name, r.value.0)), r.value.1)
  {
    MessagesAreValid(Some(f));
    MetaAreaIs(f, stale);
    var ms := Sent(f, rest);
    assert ms[0] == Meta(Some(f)) && ms[1..] == Chunks(f.data) + rest;
    hide CString, Collect, Chunks, NameField, Be32, FromBe32, Valid;
  }

  lemma {:induction false} CollectedSize(ms: seq<Msg>, size: nat)
    ensures var r := Collect(ms, size);
            r.Some? ==> |r.value.0| == size
    decreases |ms|
  {
    if size > 0 && ms != [] && ms[0].kind == COMMAND_FILE_DATA && |ms[0].data| <= size {
      CollectedSize(ms[1..], size - |ms[0].data|);
    }
  }

  /** uade_receive_file rebuilds exactly the file that uade_send_file chunked, and takes exactly its
      messages, if and only if the file is transferable: shorter than 2^32 - 1 bytes, and with no
      name or one of 1 to 3995 characters. */
  lemma FileRoundTripIff(f: File, rest: seq<Msg>)
    requires (f.name.Some? ==> IsCString(f.name.value)) && forall m :: m in rest ==> Valid(m)
    ensures forall m :: m in Sent(f, rest) ==> Valid(m)
    ensures (forall stale: seq<int> :: |stale| == CHUNK ==> FromMessages(Sent(f, rest), stale) == (Received(f), rest))
            <==> Transferable(f)
  {
    FromSent(f, rest, seq(CHUNK, i => 1));
    if Transferable(f) {
      forall stale: seq<int> | |stale| == CHUNK ensures FromMessages(Sent(f, rest), stale) == (Received(f), rest) {
        TransferableComesBack(f, rest, stale);
      }
    } else {
      OtherwiseNot(f, rest, seq(CHUNK, i => 1));
    }
  }

  lemma TransferableComesBack(f: File, rest: seq<Msg>, stale: seq<int>)
    requires Transferable(f) && (f.name.Some? ==> IsCString(f.name.value))
    requires |stale| == CHUNK && forall m :: m in rest ==> Valid(m)
    ensures forall m :: m in Sent(f, rest) ==> Valid(m)
    ensures FromMessages(Sent(f, rest), stale) == (Received(f), rest)
  {
    hide FromMessages, Sent, Chunks, Collect, CString, MetaArea, Valid;
    FromSent(f, rest, stale);
    ChunksCollect(f.data, rest);
    NameComesBack(f, stale);
  }

  lemma NameComesBack(f: File, stale: seq<int>)
    requires |stale| == CHUNK && (f.name.Some? ==> IsCString(f.name.value) && |f.name.value| <= NAME_SIZE - 5)
    ensures CString(MetaArea(f, stale)[4..4 + NAME_SIZE]) == Some(if f.name.None? then [] else f.name.value)
  {
    var n := if f.name.None? then [] else f.name.value;
    MetaAreaIs(f, stale);
    var field := MetaArea(f, stale)[4..4 + NAME_SIZE];
    hide MetaArea;
    assert forall i :: 0 <= i < NAME_SIZE - 4 ==> field[i] == NameField(f.name)[i];
    CStringStops(field, |n|);
    assert field[..|n|] == n;
  }

  lemma OtherwiseNot(f: File, rest: seq<Msg>, stale: seq<int>)
    requires !Transferable(f) && (f.name.Some? ==> IsCString(f.name.value))
    requires |stale| == CHUNK && (forall i :: 0 <= i < CHUNK ==> stale[i] == 1) && forall m :: m in rest ==> Valid(m)
    ensures forall m :: m in Sent(f, rest) ==> Valid(m)
    ensures FromMessages(Sent(f, rest), stale) != (Received(f), rest)
  {
    FromSent(f, rest, stale);
    var size := |f.data| % 0x1_0000_0000;
    CollectedSize(Chunks(f.data) + rest, size);
    if f.name.Some? && |f.name.value| >= NAME_SIZE - 4 {
      LongNameRuns(f, stale);
    } else if f.name == Some([]) {
      NameComesBack(f, stale);
    }
    hide FromMessages, Sent, Chunks, Collect, CString, MetaArea, Valid;
  }

  lemma LongNameRuns(f: File, stale: seq<int>)
    requires f.name.Some? && IsCString(f.name.value) && |f.name.value| >= NAME_SIZE - 4
    requires |stale| == CHUNK && forall i :: 0 <= i < CHUNK ==> stale[i] == 1
    ensures CString(MetaArea(f, stale)[4..4 + NAME_SIZE]) == None
  {
    MetaAreaIs(f, stale);
    var field := MetaArea(f, stale)[4..4 + NAME_SIZE];
    hide MetaArea;
    forall i | 0 <= i < NAME_SIZE ensures field[i] != 0 {
      if i < NAME_SIZE - 4 {
        assert field[i] == NameField(f.name)[i] == f.name.value[i];
      } else {
        assert field[i] == 1;
      }
    }
    CStringRuns(field);
  }

  /** A file that does not exist is reported as missing. */
  lemma MissingFile(rest: seq<Msg>, stale: seq<int>)
    requires |stale| == CHUNK && forall m :: m in rest ==> Valid(m)
    ensures forall m :: m in FileMessages(None) + rest ==> Valid(m)
    ensures FromMessages(FileMessages(None) + rest, stale) == (Missing, rest)
  {
    MessagesAreValid(None);
    var ms := FileMessages(None) + rest;
    assert ms[0] == Meta(None) && ms[1..] == rest;
    Be32RoundTrip(NO_FILE);
    var area := ms[0].data + stale[|ms[0].data|..];
    assert area[..4] == Be32(NO_FILE);
  }

  // ------------------------------------------------------- the code, step by step

  class Pipe {
    var bytes: seq<int>
  }

  /** struct uade_ipc with its two pipes. */
  class Connection {
    var state: State
    var inputbuffer: seq<int>
    const inPipe: Pipe
    const outPipe: Pipe

    ghost function P(): Peer
      reads this
    {
      Peer(state, inputbuffer)
    }

    /** The bytes still to be decoded. */
    ghost function Incoming(): seq<int>
      reads this, inPipe
    {
      inputbuffer + inPipe.bytes
    }

    /** uade_set_peer */
    constructor (i: Pipe, o: Pipe)
      ensures P() == Peer(Initial, []) && inPipe == i && outPipe == o
    {
      state, inputbuffer := Initial, [];
      inPipe, outPipe := i, o;
    }

    /** uade_send_message */
    method SendMessage(m: Msg) returns (ok: bool)
      requires inPipe != outPipe
      modifies `state, outPipe
      ensures var (q, out, done) := Send(old(P()), m);
              P() == q && outPipe.bytes == old(outPipe.bytes) + out && ok == done
    {
      hide Encode;
      if state.Initial? {
        state := S;
      } else if state.R? {
        return false;
      }
      if !Valid(m) {
        return false;
      }
      if m.kind == COMMAND_TOKEN {
        state := R;
      }
      outPipe.bytes := outPipe.bytes + Encode(m);
      return true;
    }

    /** get_more, with uade_atomic_read in it. */
    method More(bytes: nat) returns (ok: bool)
      modifies `inputbuffer, inPipe
      ensures (inputbuffer, inPipe.bytes, ok) == GetMore(old(inputbuffer), old(inPipe.bytes), bytes)
    {
      if |inputbuffer| >= bytes {
        return true;
      }
      if bytes > MAX_MESSAGE {
        return false;
      }
      var missing := bytes - |inputbuffer|;
      if |inPipe.bytes| < missing {
        inPipe.bytes := [];
        return false;
      }
      inputbuffer := inputbuffer + inPipe.bytes[..missing];
      inPipe.bytes := inPipe.bytes[missing..];
      return true;
    }

    /** uade_receive_message */
    method ReceiveMessage() returns (o: Outcome)
      modifies `state, `inputbuffer, inPipe
      ensures (P(), inPipe.bytes, o) == Receive(old(P()), old(inPipe.bytes))
    {
      hide GetMore, FromBe32;
      if state.Initial? {
        state := R;
      } else if state.S? {
        return Failed;
      }
      var ok := More(8);
      if !ok || |inputbuffer| < 8 {
        return Closed;
      }
      var kind, size := FromBe32(inputbuffer[..4]), FromBe32(inputbuffer[4..8]);
      inputbuffer := inputbuffer[8..];
      if !(0 < kind < MSG_LAST && 0 <= size && 8 + size <= MAX_MESSAGE) {
        return Failed;
      }
      ok := More(size);
      if !ok || |inputbuffer| < size {
        return Failed;
      }
      o := Got(Msg(kind, inputbuffer[..size]));
      inputbuffer := inputbuffer[size..];
      if kind == COMMAND_TOKEN {
        state := S;
      }
    }

    /** uade_send_file: its messages, one after the other. */
    method SendFile(f: Option<File>) returns (ok: bool)
      requires inPipe != outPipe && !state.R?
      modifies `state, outPipe
      ensures ok && state == S && outPipe.bytes == old(outPipe.bytes) + EncodeAll(FileMessages(f))
    {
      hide Encode, EncodeAll, Chunks, NameField, Be32, Valid;
      MessagesAreValid(f);
      assert Meta(f) in FileMessages(f);
      ok := SendMessage(Meta(f));
      EncodeOne(Meta(f));
      if f.None? {
        return true;
      }
      var data := f.value.data;
      ghost var before := outPipe.bytes;
      var sent := 0;
      assert data[0..] == data;
      NoChunks();
      while sent < |data|
        invariant 0 <= sent <= |data| && state == S
        invariant outPipe.bytes + EncodeAll(Chunks(data[sent..])) == before + EncodeAll(Chunks(data))
      {
        var sendbytes := |data| - sent;
        if sendbytes > CHUNK {
          sendbytes := CHUNK;
        }
        var m := Msg(COMMAND_FILE_DATA, data[sent..sent + sendbytes]);
        FirstChunk(data[sent..]);
        assert m.data == data[sent..][..sendbytes];
        assert data[sent..][sendbytes..] == data[sent + sendbytes..];
        ghost var was := outPipe.bytes;
        var fine := SendMessage(m);
        assert was + (Encode(m) + EncodeAll(Chunks(data[sent + sendbytes..]))) ==
               (was + Encode(m)) + EncodeAll(Chunks(data[sent + sendbytes..]));
        sent := sent + sendbytes;
      }
      assert data[sent..] == [];
      assert outPipe.bytes + [] == outPipe.bytes;
      EncodeFirst(Meta(f), Chunks(data));
      assert old(outPipe.bytes) + Encode(Meta(f)) + EncodeAll(Chunks(data)) ==
             old(outPipe.bytes) + (Encode(Meta(f)) + EncodeAll(Chunks(data)));
      return true;
    }

    /** uade_receive_file when these messages are to come; `stale` is what the buffer on the stack
        happens to hold. */
    method ReceiveFile(ghost ms: seq<Msg>, stale: seq<int>) returns (r: Reply)
      requires !state.S? && Incoming() == EncodeAll(ms) && (forall m :: m in ms ==> Valid(m)) && |stale| == CHUNK
      modifies `state, `inputbuffer, inPipe
      ensures r == FromMessages(ms, stale).0
      ensures r.Received? ==> Incoming() == EncodeAll(FromMessages(ms, stale).1)
    {
      hide Encode, EncodeAll, FromBe32, CString, Receive;
      NextMessage(P(), inPipe.bytes, ms);
      var o := ReceiveMessage();
      if !o.Got? || o.m.kind != COMMAND_FILE {
        return Error;
      }
      assert Valid(ms[0]);
      var area := o.m.data + stale[|o.m.data|..];
      var filesize := FromBe32(area[..4]);
      if filesize == NO_FILE {
        return Missing;
      }
      var name := CString(area[4..4 + NAME_SIZE]);
      if name.None? || filesize < 0 {
        return Error;
      }
      var data, ok := ReceiveData(ms[1..], filesize);
      if !ok {
        return Error;
      }
      return Received(File(if name.value == [] then None else name, data));
    }

    /** The loop that collects the data messages. */
    method ReceiveData(ghost ms: seq<Msg>, filesize: nat) returns (data: seq<int>, ok: bool)
      requires state == R && Incoming() == EncodeAll(ms) && forall m :: m in ms ==> Valid(m)
      modifies `state, `inputbuffer, inPipe
      ensures ok == Collect(ms, filesize).Some?
      ensures ok ==> data == Collect(ms, filesize).value.0 && Incoming() == EncodeAll(Collect(ms, filesize).value.1)
    {
      hide Encode, EncodeAll, Receive, Valid;
      data, ok := [], true;
      ghost var left := ms;
      PrependNothing(Collect(ms, filesize));
      while |data| < filesize
        invariant |data| <= filesize && state == R && Incoming() == EncodeAll(left)
        invariant forall m :: m in left ==> Valid(m)
        invariant Collect(ms, filesize) == Prepend(data, Collect(left, filesize - |data|))
        decreases |left|
      {
        NextMessage(P(), inPipe.bytes, left);
        var o := ReceiveMessage();
        if !o.Got? || o.m.kind != COMMAND_FILE_DATA || |o.m.data| > filesize - |data| {
          ok := false;
          return;
        }
        PrependTwice(data, o.m.data, Collect(left[1..], filesize - |data| - |o.m.data|));
        data := data + o.m.data;
        left := left[1..];
      }
      assert data + [] == data;
    }
  }

  /** The bytes collected so far in front of those still to come. */
  function Prepend(s: seq<int>, r: Option<(seq<int>, seq<Msg>)>): Option<(seq<int>, seq<Msg>)> {
    if r.None? then None else Some((s + r.value.0, r.value.1))
  }

  lemma PrependNothing(r: Option<(seq<int>, seq<Msg>)>)
    ensures Prepend([], r) == r
  {
    if r.Some? {
      assert [] + r.value.0 == r.value.0;
    }
  }

  lemma PrependTwice(s: seq<int>, t: seq<int>, r: Option<(seq<int>, seq<Msg>)>)
    ensures Prepend(s, Prepend(t, r)) == Prepend(s + t, r)
  {
    if r.Some? {
      assert s + (t + r.value.0) == s + t + r.value.0;
    }
  }

  lemma EncodeOne(m: Msg)
    ensures EncodeAll([m]) == Encode(m) && EncodeAll([m] + []) == Encode(m)
  {
    assert [m][1..] == [] && [m] + [] == [m];
    assert EncodeAll([]) == [];
  }

  lemma EncodeFirst(m: Msg, ms: seq<Msg>)
    ensures EncodeAll([m] + ms) == Encode(m) + EncodeAll(ms)
  {
    assert ([m] + ms)[1..] == ms;
  }

  lemma NoChunks()
    ensures Chunks([]) == [] && EncodeAll([]) == []
  {
  }

  lemma ChunkShape(data: seq<int>)
    requires data != []
    ensures var n := if |data| > CHUNK then CHUNK else |data|;
            Chunks(data) == [Msg(COMMAND_FILE_DATA, data[..n])] + Chunks(data[n..])
  {
    if |data| <= CHUNK {
      assert data[..|data|] == data && data[|data|..] == [];
      NoChunks();
      assert [Msg(COMMAND_FILE_DATA, data)] + [] == [Msg(COMMAND_FILE_DATA, data)];
    }
  }

  /** The next data message. */
  lemma FirstChunk(data: seq<int>)
    requires data != []
    ensures var n := if |data| > CHUNK then CHUNK else |data|;
            var m := Msg(COMMAND_FILE_DATA, data[..n]);
            Valid(m) && EncodeAll(Chunks(data)) == Encode(m) + EncodeAll(Chunks(data[n..]))
  {
    hide Chunks, Encode, EncodeAll;
    ChunkShape(data);
    var n := if |data| > CHUNK then CHUNK else |data|;
    EncodeFirst(Msg(COMMAND_FILE_DATA, data[..n]), Chunks(data[n..]));
  }

  /** The next message when these are the messages to come, or none. */
  lemma NextMessage(p: Peer, chan: seq<int>, ms: seq<Msg>)
    requires !p.state.S? && p.input + chan == EncodeAll(ms) && forall m :: m in ms ==> Valid(m)
    ensures var (q, c, o) := Receive(p, chan);
            if ms == [] then !o.Got?
            else o == Got(ms[0]) && q.input + c == EncodeAll(ms[1..]) && (ms[0].kind != COMMAND_TOKEN ==> q.state == R)
  {
    hide Encode;
    if ms == [] {
      assert p.input == [] && chan == [];
    } else {
      hide Receive;
      Decodes(p, chan, ms[0], EncodeAll(ms[1..]));
    }
  }

  /** A message on the channel: its kind and the number of its data bytes, most significant byte first, and the data;
      kinds 1 to 29 and up to 4096 bytes of data are allowed. */
  lemma MessageLayout(m: Msg)
    ensures Valid(m) <==> 1 <= m.kind <= 29 && |m.data| <= 4096
    ensures |Encode(m)| == 8 + |m.data| && Encode(m)[8..] == m.data
    ensures Valid(m) ==>
              var s := Encode(m);
              && m.kind == 0x100_0000 * s[0] + 0x1_0000 * s[1] + 0x100 * s[2] + s[3]
              && |m.data| == 0x100_0000 * s[4] + 0x1_0000 * s[5] + 0x100 * s[6] + s[7]
              && forall i :: 0 <= i < 8 ==> 0 <= s[i] < 0x100
  {
    if Valid(m) {
      NetworkOrder(m.kind);
      NetworkOrder(|m.data|);
      hide Be32;
      var s := Encode(m);
      assert s[..4] == Be32(m.kind) && s[4..8] == Be32(|m.data|);
    }
  }

  /** A file is sent as a message of kind 5 of 4000 bytes, with its size and its name, ended by a zero, and then in
      messages of kind 6 of 4096 bytes and one with the rest. */
  lemma FileLayout(f: File)
    requires |f.data| < 0xFFFF_FFFF
    ensures var ms := FileMessages(Some(f));
            && |ms| == 1 + (|f.data| + 4095) / 4096
            && ms[0].kind == 5 && |ms[0].data| == 4000 && FromBe32(ms[0].data[..4]) == |f.data|
            && (forall i :: 4 <= i < 4000 ==>
                  ms[0].data[i] == if f.name.Some? && i - 4 < |f.name.value| && i - 4 < 3999 then f.name.value[i - 4] else 0)
            && (forall k :: 0 < k < |ms| ==>
                  && ms[k].kind == 6
                  && 4096 * (k - 1) <= |f.data|
                  && ms[k].data == if 4096 * k <= |f.data| then f.data[4096 * (k - 1)..4096 * k] else f.data[4096 * (k - 1)..])
  {
    NetworkOrder(|f.data|);
    Small32(|f.data|);
    hide Be32, FromBe32;
    ChunksAre(f.data);
    assert ((Be32(|f.data|) + NameField(f.name))[..NAME_SIZE])[..4] == Be32(|f.data|);
  }

  lemma Small32(n: nat)
    requires n < 0x1_0000_0000
    ensures n % 0x1_0000_0000 == n
  {
  }

  lemma ChunksAre(data: seq<int>)
    ensures |Chunks(data)| == (|data| + 4095) / 4096
    ensures forall k :: 0 <= k < |Chunks(data)| ==>
              && Chunks(data)[k].kind == 6 && 4096 * k <= |data|
              && Chunks(data)[k].data == if 4096 * (k + 1) <= |data| then data[4096 * k..4096 * (k + 1)] else data[4096 * k..]
  {
    ChunkCount(data);
    forall k | 0 <= k < |Chunks(data)|
      ensures Chunks(data)[k].kind == 6 && 4096 * k <= |data|
      ensures Chunks(data)[k].data == if 4096 * (k + 1) <= |data| then data[4096 * k..4096 * (k + 1)] else data[4096 * k..]
    {
      ChunkAt(data, k);
      hide Chunks;
    }
  }

  lemma {:induction false} ChunkCount(data: seq<int>)
    ensures |Chunks(data)| == (|data| + 4095) / 4096
    decreases |data|
  {
    if |data| > CHUNK {
      ChunkCount(data[CHUNK..]);
    }
  }

  lemma {:induction false} ChunkAt(data: seq<int>, k: nat)
    requires k < |Chunks(data)|
    ensures var c := Chunks(data)[k];
            c.kind == 6 && 4096 * k <= |data|
            && c.data == if 4096 * (k + 1) <= |data| then data[4096 * k..4096 * (k + 1)] else data[4096 * k..]
    decreases |data|
  {
    if |data| > CHUNK && k > 0 {
      ChunkAt(data[CHUNK..], k - 1);
      assert Chunks(data)[k] == Chunks(data[CHUNK..])[k - 1];
      hide Chunks;
      Slices(data, k - 1);
    }
  }

  lemma Slices(data: seq<int>, k: nat)
    requires |data| >= 4096 + 4096 * k
    ensures data[4096..][4096 * k..] == data[4096 * (k + 1)..]
    ensures |data| >= 4096 * (k + 2) ==> data[4096..][4096 * k..4096 * (k + 1)] == data[4096 * (k + 1)..4096 * (k + 2)]
  {
  }

  /** Whoever sends a message of kind 19 must listen from then on, and whoever receives one may send; a listener cannot send,
      and with any other message the roles stay. */
  lemma Roles(p: Peer, m: Msg, chan: seq<int>, rest: seq<int>)
    requires Valid(m)
    ensures p.state == R ==> Send(p, m) == (p, [], false)
    ensures p.state != R ==> Send(p, m) == (p.(state := if m.kind == 19 then R else S), Encode(m), true)
    ensures p.state != S && p.input + chan == Encode(m) + rest ==>
              Receive(p, chan).2 == Got(m) && Receive(p, chan).0.state == if m.kind == 19 then S else R
  {
    if p.state != S && p.input + chan == Encode(m) + rest {
      Decodes(p, chan, m, rest);
    }
    hide Encode, Receive;
  }
}
