/**
 * The command-line probe's WebSocket: a reader that hands out text messages
 * however the stream was cut into chunks on its way.
 */
module FrameReader {
  import opened Wrappers
  import opened Iq
  import opened Sequences
  import opened Frames

  const CRLF: seq<Byte> := [13, 10]
  const HEAD_END: seq<Byte> := [13, 10, 13, 10]
  /** "101" */
  const SWITCHING: seq<Byte> := [49, 48, 49]

  // ----- the socket -----

  function Concat(chunks: seq<seq<Byte>>): seq<Byte> {
    if chunks == [] then [] else chunks[0] + Concat(chunks[1..])
  }

  /** What the network will deliver, in the pieces it will deliver it in, and what has been sent. */
  class Socket {
    var incoming: seq<seq<Byte>>
    var sent: seq<seq<Byte>>

    constructor (incoming: seq<seq<Byte>>)
      ensures this.incoming == incoming && sent == []
    {
      this.incoming, sent := incoming, [];
    }

    ghost predicate Valid()
      reads this
    {
      forall k :: 0 <= k < |incoming| ==> incoming[k] != []
    }

    function Stream(): seq<Byte>
      reads this
    {
      Concat(incoming)
    }

    /** At most `limit` bytes, and none only when the peer has closed. */
    method Receive(limit: nat) returns (chunk: seq<Byte>)
      requires Valid() && limit > 0
      modifies this`incoming
      ensures Valid() && chunk + Stream() == old(Stream()) && |chunk| <= limit
      ensures chunk == [] ==> old(Stream()) == []
    {
      if incoming == [] {
        return [];
      }
      var first := incoming[0];
      if |first| <= limit {
        chunk, incoming := first, incoming[1..];
      } else {
        chunk, incoming := first[..limit], [first[limit..]] + incoming[1..];
        assert incoming[1..] == old(incoming[1..]);
        assert first == chunk + first[limit..];
        ConcatAssociates(chunk, first[limit..], Concat(old(incoming[1..])));
      }
    }

    method SendAll(bytes: seq<Byte>)
      modifies this`sent
      ensures sent == old(sent) + [bytes]
    {
      sent := sent + [bytes];
    }
  }

  lemma {:induction false} CutTwice(data: seq<Byte>, more: seq<Byte>, k: nat)
    requires k <= |data|
    ensures (data + more)[..k] == data[..k] && (data + more)[k..] == data[k..] + more
  {
  }

  // ----- looking for a marker -----

  predicate Occurs(data: seq<Byte>, marker: seq<Byte>, i: nat) {
    i + |marker| <= |data| && data[i..i + |marker|] == marker
  }

  /** The first place at or after `from` where the marker occurs. */
  function First(data: seq<Byte>, marker: seq<Byte>, from: nat): (at: Option<nat>)
    ensures at.Some? ==> from <= at.value && at.value + |marker| <= |data|
    decreases |data| + 1 - from
  {
    if from + |marker| > |data| then None
    else if Occurs(data, marker, from) then Some(from)
    else First(data, marker, from + 1)
  }

  lemma {:induction false} FirstIsFirst(data: seq<Byte>, marker: seq<Byte>, from: nat)
    ensures var at := First(data, marker, from);
      && (at.Some? ==> Occurs(data, marker, at.value))
      && forall i :: from <= i < (if at.Some? then at.value else |data| + 1) ==> !Occurs(data, marker, i)
    decreases |data| + 1 - from
  {
    if from + |marker| <= |data| && !Occurs(data, marker, from) {
      FirstIsFirst(data, marker, from + 1);
    }
  }

  /** Bytes that arrive later do not move the first occurrence. */
  lemma {:induction false} FirstStays(data: seq<Byte>, more: seq<Byte>, marker: seq<Byte>, from: nat)
    requires First(data, marker, from).Some?
    ensures First(data + more, marker, from) == First(data, marker, from)
    decreases |data| + 1 - from
  {
    assert (data + more)[from..from + |marker|] == data[from..from + |marker|];
    if !Occurs(data, marker, from) {
      FirstStays(data, more, marker, from + 1);
    }
  }

  // ----- what is to be heard in a stream -----

  datatype Outcome = Message(payload: seq<Byte>) | ServerClosed | Lost

  /** The next text message of a stream, the stream after it, and how many pings came before it. */
  function NextMessage(bytes: seq<Byte>): (Outcome, seq<Byte>, nat)
    decreases |bytes|
  {
    match Parse(bytes)
    case None => (Lost, bytes, 0)
    case Some((f, rest)) =>
      if f.opcode == TEXT then (Message(f.payload), rest, 0)
      else if f.opcode == CLOSE then (ServerClosed, rest, 0)
      else
        var later := NextMessage(rest);
        (later.0, later.1, later.2 + if f.opcode == PING then 1 else 0)
  }

  lemma {:induction false} NextMessageShortens(bytes: seq<Byte>)
    requires NextMessage(bytes).0 != Lost
    ensures |NextMessage(bytes).1| < |bytes|
    decreases |bytes|
  {
    var (f, rest) := Parse(bytes).value;
    if f.opcode != TEXT && f.opcode != CLOSE {
      NextMessageShortens(rest);
    }
  }

  /** Everything a reader that keeps asking gets to hear, how it ends, and the pings on the way. */
  function Followed(bytes: seq<Byte>): (seq<seq<Byte>>, Outcome, nat)
    decreases |bytes|
  {
    var next := NextMessage(bytes);
    if !next.0.Message? then ([], next.0, next.2)
    else
      NextMessageShortens(bytes);
      var later := Followed(next.1);
      ([next.0.payload] + later.0, later.1, next.2 + later.2)
  }

  /** A frame in the order its bytes are read: two, the rest of its length, its payload. */
  lemma {:induction false} ParseSteps(bytes: seq<Byte>)
    ensures |bytes| >= 2 ==>
      var after, k := bytes[2..], ExtraBytes(bytes[1]);
      if |after| < k then Parse(bytes).None?
      else
        var n, body := LengthOf(bytes[1], after[..k]), after[k..];
        Parse(bytes) == if |body| < n then None else Some((Frame(bytes[0] % 16, body[..n]), body[n..]))
  {
    if |bytes| >= 2 {
      var after, k := bytes[2..], ExtraBytes(bytes[1]);
      if |after| >= k {
        assert after[..k] == bytes[2..2 + k];
        assert after[k..] == bytes[2 + k..];
        var n := LengthOf(bytes[1], after[..k]);
        if |after[k..]| >= n {
          assert after[k..][..n] == bytes[2 + k..2 + k + n];
          assert after[k..][n..] == bytes[2 + k + n..];
        }
      }
    }
  }

  // ----- the reader -----

  /** What a server takes for a pong, and nothing else: laid out as one, without a payload. */
  ghost predicate IsPong(bytes: seq<Byte>) {
    |bytes| == 6 && LaidOut(bytes, PONG, [], bytes[2..]) && ParseMasked(bytes) == Some((Frame(PONG, []), []))
  }

  /** `later` is `earlier` and then some number of pongs. */
  ghost predicate Ponged(earlier: seq<seq<Byte>>, later: seq<seq<Byte>>, count: nat) {
    && |later| == |earlier| + count
    && later[..|earlier|] == earlier
    && forall k :: |earlier| <= k < |later| ==> IsPong(later[k])
  }

  lemma {:induction false} PongedTwice(a: seq<seq<Byte>>, b: seq<seq<Byte>>, c: seq<seq<Byte>>, m: nat, n: nat)
    requires Ponged(a, b, m) && Ponged(b, c, n)
    ensures Ponged(a, c, m + n)
  {
    assert c[..|a|] == c[..|b|][..|a|];
    forall k | |a| <= k < |c| ensures IsPong(c[k]) {
      if k < |b| {
        assert c[k] == c[..|b|][k];
      }
    }
  }

  datatype Greeting = Accepted | Refused | Dropped

  /** How a server's first bytes are taken, and what is left for the reader. */
  function Greeted(bytes: seq<Byte>): (Greeting, seq<Byte>) {
    match First(bytes, HEAD_END, 0)
    case None => (Dropped, [])
    case Some(i) =>
      var line := First(bytes[..i + 4], CRLF, 0);
      if line.Some? && First(bytes[..line.value], SWITCHING, 0).Some? then (Accepted, bytes[i + 4..])
      else (Refused, [])
  }

  /** A header is complete, and its first line says 101. */
  ghost predicate Switches(bytes: seq<Byte>) {
    && (exists i: nat :: Occurs(bytes, HEAD_END, i))
    && exists j: nat, l: nat :: IsStatusLine(bytes, l) && Occurs(bytes, SWITCHING, j) && j + |SWITCHING| <= l
  }

  /** The first line ends at l. */
  ghost predicate IsStatusLine(bytes: seq<Byte>, l: nat) {
    Occurs(bytes, CRLF, l) && forall k: nat :: k < l ==> !Occurs(bytes, CRLF, k)
  }

  lemma {:induction false} OccursInPrefix(bytes: seq<Byte>, marker: seq<Byte>, n: nat, i: nat)
    requires n <= |bytes|
    ensures Occurs(bytes[..n], marker, i) <==> i + |marker| <= n && Occurs(bytes, marker, i)
  {
    if i + |marker| <= n {
      assert bytes[..n][i..i + |marker|] == bytes[i..i + |marker|];
    }
  }

  /** The first line of a complete header ends within it. */
  lemma {:induction false} StatusLineIs(bytes: seq<Byte>, i: nat) returns (l: nat)
    requires Occurs(bytes, HEAD_END, i)
    ensures l <= i && IsStatusLine(bytes, l) && First(bytes[..i + 4], CRLF, 0) == Some(l)
  {
    var header := bytes[..i + 4];
    assert bytes[i..i + 2] == bytes[i..i + 4][..2];
    OccursInPrefix(bytes, CRLF, i + 4, i);
    FirstIsFirst(header, CRLF, 0);
    l := First(header, CRLF, 0).value;
    OccursInPrefix(bytes, CRLF, i + 4, l);
    forall k: nat | k < l ensures !Occurs(bytes, CRLF, k) {
      OccursInPrefix(bytes, CRLF, i + 4, k);
    }
  }

  /**
   * How a server's first bytes are taken, in terms of what occurs in them: dropped if no header ends,
   * accepted if its first line says 101, with what follows the first end of a header left to read,
   * and refused otherwise.
   */
  lemma {:induction false} GreetedExactly(bytes: seq<Byte>)
    ensures Greeted(bytes).0 == Dropped <==> forall i: nat :: !Occurs(bytes, HEAD_END, i)
    ensures Greeted(bytes).0 == Accepted <==> Switches(bytes)
    ensures Greeted(bytes).0 == Accepted ==>
              exists i: nat :: && Occurs(bytes, HEAD_END, i) && (forall k: nat :: k < i ==> !Occurs(bytes, HEAD_END, k))
                               && Greeted(bytes).1 == bytes[i + 4..]
  {
    FirstIsFirst(bytes, HEAD_END, 0);
    var end := First(bytes, HEAD_END, 0);
    if end.Some? {
      var i := end.value;
      var l := StatusLineIs(bytes, i);
      FirstIsFirst(bytes[..l], SWITCHING, 0);
      assert bytes[..i + 4][..l] == bytes[..l];
      SaysSwitching(bytes, l);
    } else {
      forall i: nat ensures !Occurs(bytes, HEAD_END, i) {
        assert i <= |bytes| ==> !Occurs(bytes, HEAD_END, i);
      }
    }
  }

  lemma {:induction false} SaysSwitching(bytes: seq<Byte>, l: nat)
    requires IsStatusLine(bytes, l) && l <= |bytes|
    ensures First(bytes[..l], SWITCHING, 0).Some? <==>
            exists j: nat, l': nat :: IsStatusLine(bytes, l') && Occurs(bytes, SWITCHING, j) && j + |SWITCHING| <= l'
  {
    FirstIsFirst(bytes[..l], SWITCHING, 0);
    if First(bytes[..l], SWITCHING, 0).Some? {
      var j := First(bytes[..l], SWITCHING, 0).value;
      OccursInPrefix(bytes, SWITCHING, l, j);
    }
    forall j: nat, l': nat | IsStatusLine(bytes, l') && Occurs(bytes, SWITCHING, j) && j + |SWITCHING| <= l'
      ensures First(bytes[..l], SWITCHING, 0).Some?
    {
      assert l' == l;
      OccursInPrefix(bytes, SWITCHING, l, j);
    }
  }

  class WebSocket {
    const sock: Socket
    var buffer: seq<Byte>

    ghost predicate Valid()
      reads this, sock
    {
      sock.Valid()
    }

    /** All that has yet to be read: what is buffered, and what is still to arrive. */
    function Ahead(): seq<Byte>
      reads this, sock
    {
      buffer + sock.Stream()
    }

    constructor (sock: Socket)
      requires sock.Valid()
      ensures this.sock == sock && Valid() && Ahead() == sock.Stream() && buffer == []
    {
      this.sock := sock;
      buffer := [];
    }

    /** Everything up to and including the marker, and the rest of the read it came in. */
    method Until(marker: seq<Byte>) returns (found: Option<(seq<Byte>, seq<Byte>)>)
      requires Valid()
      modifies sock`incoming
      ensures Valid()
      ensures match First(old(sock.Stream()), marker, 0)
        case None => found.None?
        case Some(i) =>
          && found.Some? && found.value.0 == old(sock.Stream())[..i + |marker|]
          && found.value.1 + sock.Stream() == old(sock.Stream())[i + |marker|..]
    {
      var data := [];
      ghost var all := sock.Stream();
      while First(data, marker, 0).None?
        invariant Valid() && data + sock.Stream() == all
        decreases |sock.Stream()|
      {
        var chunk := sock.Receive(4096);
        if chunk == [] {
          assert data == all;
          return None;
        }
        ConcatAssociates(data, chunk, sock.Stream());
        data := data + chunk;
      }
      var i := First(data, marker, 0).value;
      FirstStays(data, sock.Stream(), marker, 0);
      CutTwice(data, sock.Stream(), i + |marker|);
      found := Some((data[..i + |marker|], data[i + |marker|..]));
    }

    /** Keeps what the server sent right after the handshake. */
    method Handshake() returns (greeting: Greeting)
      requires Valid() && buffer == []
      modifies this, sock`incoming
      ensures Valid()
      ensures greeting == Greeted(old(Ahead())).0
      ensures greeting.Accepted? ==> Ahead() == Greeted(old(Ahead())).1
    {
      assert Ahead() == sock.Stream();
      ghost var all := sock.Stream();
      var found := Until(HEAD_END);
      if found.None? {
        return Dropped;
      }
      var (header, rest) := found.value;
      var line := First(header, CRLF, 0);
      if line.None? {
        return Refused;
      }
      assert header[..line.value] == all[..line.value];
      if First(header[..line.value], SWITCHING, 0).None? {
        return Refused;
      }
      buffer := rest;
      greeting := Accepted;
    }

    method Read(count: nat) returns (head: Option<seq<Byte>>)
      requires Valid()
      modifies this, sock`incoming
      ensures Valid()
      ensures if |old(Ahead())| < count then head.None?
        else head == Some(old(Ahead())[..count]) && Ahead() == old(Ahead())[count..]
    {
      ghost var all := Ahead();
      while |buffer| < count
        invariant Valid() && Ahead() == all
        decreases |sock.Stream()|
      {
        var chunk := sock.Receive(65536);
        if chunk == [] {
          return None;
        }
        ConcatAssociates(buffer, chunk, sock.Stream());
        buffer := buffer + chunk;
      }
      CutTwice(buffer, sock.Stream(), count);
      head, buffer := Some(buffer[..count]), buffer[count..];
    }

    /** One frame off the wire. */
    method ReadFrame() returns (frame: Option<Frame>)
      requires Valid()
      modifies this, sock`incoming
      ensures Valid()
      ensures match Parse(old(Ahead()))
        case None => frame.None?
        case Some((f, rest)) => frame == Some(f) && Ahead() == rest
    {
      ghost var all := Ahead();
      ParseSteps(all);
      var two := Read(2);
      if two.None? {
        return None;
      }
      var first, second := two.value[0], two.value[1];
      var length: nat := second % 128;
      if length >= 126 {
        var extra := Read(if length == 126 then 2 else 8);
        if extra.None? {
          return None;
        }
        length := Value(extra.value);
      }
      var payload := Read(length);
      if payload.None? {
        return None;
      }
      frame := Some(Frame(first % 16, payload.value));
    }

    method SendPong(mask: Mask)
      modifies sock`sent
      ensures Ponged(old(sock.sent), sock.sent, 1)
    {
      ParseMaskedEncoded(Frame(PONG, []), mask, []);
      var pong := [0x80 + PONG, 0x80] + mask;
      assert pong == EncodeMasked(Frame(PONG, []), mask) + [];
      assert pong == EncodeMasked(Frame(PONG, []), mask) && pong[2..] == mask;
      MaskedIsLaidOut(Frame(PONG, []), mask);
      sock.SendAll(pong);
    }

    /** The next text of the stream; every ping before it has had its pong. */
    method Recv() returns (outcome: Outcome)
      requires Valid()
      modifies this, sock
      ensures Valid()
      ensures outcome == NextMessage(old(Ahead())).0
      ensures outcome != Lost ==> Ahead() == NextMessage(old(Ahead())).1
      ensures Ponged(old(sock.sent), sock.sent, NextMessage(old(Ahead())).2)
    {
      ghost var pings: nat := 0;
      while true
        invariant Valid()
        invariant Ponged(old(sock.sent), sock.sent, pings)
        invariant var next, all := NextMessage(Ahead()), NextMessage(old(Ahead()));
          all.0 == next.0 && (next.0 != Lost ==> all.1 == next.1) && all.2 == pings + next.2
        decreases |Ahead()|
      {
        ghost var before := sock.sent;
        var frame := ReadFrame();
        if frame.None? {
          return Lost;
        }
        var Frame(opcode, payload) := frame.value;
        if opcode == TEXT {
          return Message(payload);
        }
        if opcode == PING {
          var mask: Mask := *;
          SendPong(mask);
          PongedTwice(old(sock.sent), before, sock.sent, pings, 1);
          pings := pings + 1;
        } else if opcode == CLOSE {
          return ServerClosed;
        }
      }
    }

    /** Sends one text message under a mask. */
    method Send(text: seq<Byte>, mask: Mask)
      requires |text| < PowerOf256(8)
      modifies sock`sent
      ensures |sock.sent| == |old(sock.sent)| + 1 && sock.sent[..|old(sock.sent)|] == old(sock.sent)
      ensures ParseMasked(Last(sock.sent)) == Some((Frame(TEXT, text), []))
      ensures LaidOut(Last(sock.sent), TEXT, text, mask)
    {
      var length := |text|;
      var header: seq<Byte>;
      if length < 126 {
        header := [0x80 + TEXT, 0x80 + length];
      } else if length < 0x1_0000 {
        header := [0x80 + TEXT, 0x80 + 126] + BigEndian(length, 2);
      } else {
        header := [0x80 + TEXT, 0x80 + 127] + BigEndian(length, 8);
      }
      assert header == Header(TEXT, length, true);
      ParseMaskedEncoded(Frame(TEXT, text), mask, []);
      MaskedIsLaidOut(Frame(TEXT, text), mask);
      assert EncodeMasked(Frame(TEXT, text), mask) + [] == header + (mask + Masked(text, mask));
      sock.SendAll(header + (mask + Masked(text, mask)));
    }

    /** Follows the server until it is gone, as listening does. */
    method Follow() returns (texts: seq<seq<Byte>>, end: Outcome)
      requires Valid()
      modifies this, sock
      ensures Valid()
      ensures (texts, end) == (Followed(old(Ahead())).0, Followed(old(Ahead())).1)
      ensures Ponged(old(sock.sent), sock.sent, Followed(old(Ahead())).2)
    {
      texts := [];
      ghost var pings: nat := 0;
      while true
        invariant Valid()
        invariant Ponged(old(sock.sent), sock.sent, pings)
        invariant var whole, rest := Followed(old(Ahead())), Followed(Ahead());
          whole.0 == texts + rest.0 && whole.1 == rest.1 && whole.2 == pings + rest.2
        decreases |Ahead()|
      {
        ghost var before, ahead := sock.sent, Ahead();
        end := Recv();
        PongedTwice(old(sock.sent), before, sock.sent, pings, NextMessage(ahead).2);
        pings := pings + NextMessage(ahead).2;
        if !end.Message? {
          assert texts == texts + Followed(ahead).0;
          return;
        }
        NextMessageShortens(ahead);
        ConcatAssociates(texts, [end.payload], Followed(Ahead()).0);
        texts := texts + [end.payload];
      }
    }

    /** Connects, and then follows the server until it is gone. */
    method Listen() returns (greeting: Greeting, texts: seq<seq<Byte>>, end: Outcome)
      requires Valid() && buffer == []
      modifies this, sock
      ensures greeting == Greeted(old(Ahead())).0
      ensures greeting.Accepted? ==>
                var all := Followed(Greeted(old(Ahead())).1);
                texts == all.0 && end == all.1 && Ponged(old(sock.sent), sock.sent, all.2)
    {
      texts, end := [], Lost;
      greeting := Handshake();
      if greeting.Accepted? {
        texts, end := Follow();
      }
    }
  }

  // ----- the frames a server sent are the messages a reader hears -----

  /** The frames a reader gets to see: those before the first close. */
  function BeforeClose(frames: seq<Frame>): seq<Frame> {
    if frames == [] || frames[0].opcode == CLOSE then [] else [frames[0]] + BeforeClose(frames[1..])
  }

  function Payloads(frames: seq<Frame>, opcode: Opcode): seq<seq<Byte>> {
    if frames == [] then []
    else if frames[0].opcode == opcode then [frames[0].payload] + Payloads(frames[1..], opcode)
    else Payloads(frames[1..], opcode)
  }

  predicate Closes(frames: seq<Frame>) {
    exists k :: 0 <= k < |frames| && frames[k].opcode == CLOSE
  }

  predicate AllSendable(frames: seq<Frame>) {
    forall k :: 0 <= k < |frames| ==> Sendable(frames[k])
  }

  /** What follows the frames does not matter after a close, and without one is not a whole frame. */
  predicate EndsCleanly(frames: seq<Frame>, tail: seq<Byte>) {
    Closes(frames) || Parse(tail).None?
  }

  lemma {:induction false} EncodedStep(frames: seq<Frame>, tail: seq<Byte>)
    requires frames != [] && AllSendable(frames)
    ensures Parse(EncodeAll(frames) + tail) == Some((frames[0], EncodeAll(frames[1..]) + tail))
  {
    ConcatAssociates(Encode(frames[0]), EncodeAll(frames[1..]), tail);
    ParseEncoded(frames[0], EncodeAll(frames[1..]) + tail);
  }

  lemma {:induction false} ClosesStep(frames: seq<Frame>)
    requires frames != []
    ensures Closes(frames) <==> frames[0].opcode == CLOSE || Closes(frames[1..])
  {
    if Closes(frames) && frames[0].opcode != CLOSE {
      var k :| 0 <= k < |frames| && frames[k].opcode == CLOSE;
      assert frames[1..][k - 1].opcode == CLOSE;
    }
    if Closes(frames[1..]) {
      var k :| 0 <= k < |frames[1..]| && frames[1..][k].opcode == CLOSE;
      assert frames[k + 1].opcode == CLOSE;
    }
  }

  /** One frame at a time: a text is heard, a close ends it, a ping is counted, the rest is stepped over. */
  lemma {:induction false} FollowedStep(bytes: seq<Byte>, f: Frame, rest: seq<Byte>)
    requires Parse(bytes) == Some((f, rest))
    ensures Followed(bytes) ==
            if f.opcode == CLOSE then ([], ServerClosed, 0)
            else
              var later := Followed(rest);
              (if f.opcode == TEXT then [f.payload] + later.0 else later.0,
               later.1,
               if f.opcode == PING then later.2 + 1 else later.2)
  {
    assert NextMessage(bytes) ==
           if f.opcode == TEXT then (Message(f.payload), rest, 0)
           else if f.opcode == CLOSE then (ServerClosed, rest, 0)
           else (NextMessage(rest).0, NextMessage(rest).1, NextMessage(rest).2 + if f.opcode == PING then 1 else 0);
  }

  /** What a list of frames lets its reader hear. */
  function Sent(frames: seq<Frame>): (seq<seq<Byte>>, Outcome, nat) {
    (Payloads(BeforeClose(frames), TEXT),
     if Closes(frames) then ServerClosed else Lost,
     |Payloads(BeforeClose(frames), PING)|)
  }

  lemma {:induction false} SentStep(frames: seq<Frame>)
    requires frames != []
    ensures var f, later := frames[0], Sent(frames[1..]);
      Sent(frames) ==
      if f.opcode == CLOSE then ([], ServerClosed, 0)
      else
        (if f.opcode == TEXT then [f.payload] + later.0 else later.0,
         later.1,
         if f.opcode == PING then later.2 + 1 else later.2)
  {
    ClosesStep(frames);
    if frames[0].opcode != CLOSE {
      var seen := BeforeClose(frames);
      assert seen[0] == frames[0] && seen[1..] == BeforeClose(frames[1..]);
    }
  }

  /**
   * A reader that keeps asking hears exactly the text payloads the server sent before its first
   * close, in order, and passes exactly the pings sent before it.
   */
  lemma {:induction false} HearsWhatWasSent(frames: seq<Frame>, tail: seq<Byte>)
    requires AllSendable(frames) && EndsCleanly(frames, tail)
    ensures Followed(EncodeAll(frames) + tail) ==
            (Payloads(BeforeClose(frames), TEXT),
             if Closes(frames) then ServerClosed else Lost,
             |Payloads(BeforeClose(frames), PING)|)
  {
    var bytes := EncodeAll(frames) + tail;
    if frames == [] {
      assert bytes == tail;
    } else {
      EncodedStep(frames, tail);
      FollowedStep(bytes, frames[0], EncodeAll(frames[1..]) + tail);
      SentStep(frames);
      ClosesStep(frames);
      if frames[0].opcode != CLOSE {
        HearsWhatWasSent(frames[1..], tail);
      }
      assert Followed(bytes) == Sent(frames);
    }
  }

  /**
   * Frames glued to the handshake are neither lost nor out of step: whatever comes after the first
   * end of a header whose status line says 101 is heard as it was sent.
   */
  lemma {:induction false} GluedFramesAreHeard(head: seq<Byte>, frames: seq<Frame>, tail: seq<Byte>)
    requires First(head, HEAD_END, 0) == Some(|head| - 4)
    requires First(head, CRLF, 0).Some? && First(head[..First(head, CRLF, 0).value], SWITCHING, 0).Some?
    ensures Greeted(head + (EncodeAll(frames) + tail)) == (Accepted, EncodeAll(frames) + tail)
  {
    var more := EncodeAll(frames) + tail;
    FirstStays(head, more, HEAD_END, 0);
    assert (head + more)[..|head|] == head && (head + more)[|head|..] == more;
    var i := First(head, CRLF, 0).value;
    assert (head + more)[..i] == head[..i];
  }
}
