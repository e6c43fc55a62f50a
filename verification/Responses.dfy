/** Responses to clients: the three constructors of the process and the decoder of the block device driver. */
module Responses {
  import opened Domain
  import opened Wire

  datatype StatusCode = Ok | AuthFailure | InvalidSectorIndex

  function CodeOf(st: StatusCode): Byte {
    match st
    case Ok => 0
    case AuthFailure => 1
    case InvalidSectorIndex => 2
  }

  const HEADER_SIZE := 16
  const MIN_RESPONSE := HEADER_SIZE + TAG_SIZE
  const MAX_RESPONSE := MIN_RESPONSE + SECTOR_SIZE
  const READ_RESPONSE := 0x41

  /** A response as bytes; `requestType` is 1 for a read and 2 for a write. */
  function Response(st: StatusCode, requestType: nat, rid: nat, content: Bytes, key: Bytes, mac: Mac): Bytes
    requires requestType + 0x40 < 256
  {
    var buf := Magic() + [0, 0, CodeOf(st), requestType + 0x40] + BigEndian(rid, 8) + content;
    buf + mac(key, buf)
  }

  /** The content of a completed operation: the sector for a read, nothing for a write. */
  function ContentOf(ret: Result): Bytes {
    if ret.ReadReturn? then ret.data else []
  }

  method ConstructValidResponse(ret: Result, key: Bytes, requestType: nat, rid: nat, mac: Mac) returns (buf: Bytes)
    requires requestType + 0x40 < 256
    ensures buf == Response(Ok, requestType, rid, ContentOf(ret), key, mac)
  {
    buf := Magic();
    buf := buf + [0, 0, 0, requestType + 0x40];
    buf := buf + BigEndian(rid, 8);
    if ret.ReadReturn? {
      buf := buf + ret.data;
    }
    assert buf == Magic() + [0, 0, CodeOf(Ok), requestType + 0x40] + BigEndian(rid, 8) + ContentOf(ret);
    var tag := mac(key, buf);
    buf := buf + tag;
  }

  /** The two refusals: an invalid tag, or a sector index out of range. */
  method ConstructRefusal(st: StatusCode, key: Bytes, requestType: nat, rid: nat, mac: Mac) returns (buf: Bytes)
    requires requestType + 0x40 < 256 && !st.Ok?
    ensures buf == Response(st, requestType, rid, [], key, mac)
  {
    buf := Magic();
    buf := buf + [0, 0, if st.AuthFailure? then 1 else 2, requestType + 0x40];
    buf := buf + BigEndian(rid, 8);
    var tag := mac(key, buf);
    assert buf == Magic() + [0, 0, CodeOf(st), requestType + 0x40] + BigEndian(rid, 8) + [];
    buf := buf + tag;
  }

  // ---------- The driver ----------

  /** What fetching a command yields; `Misaligned` is the kernel assertion on the magic number. */
  datatype Fetch = Nothing | Failed | Misaligned | Got(status: StatusCode, ident: nat, data: Bytes)

  function StatusOf(b: Byte): Option<StatusCode> {
    match b
    case 0 => Some(Ok)
    case 1 => Some(AuthFailure)
    case 2 => Some(InvalidSectorIndex)
    case _ => None
  }

  /** The length of a response, given its first 48 bytes. */
  function LengthOf(st: StatusCode, kind: Byte): nat {
    if st.Ok? && kind == READ_RESPONSE then MAX_RESPONSE else MIN_RESPONSE
  }

  /** The first response on the stream, when the parse buffer is empty. */
  function Fetched(s: Bytes, key: Bytes, mac: Mac): Fetch {
    if |s| < MIN_RESPONSE then Failed
    else if s[..4] != Magic() then Misaligned
    else if StatusOf(s[6]).None? then Failed
    else
      var st := StatusOf(s[6]).value;
      var length := LengthOf(st, s[7]);
      if |s| < length then Failed
      else if mac(key, s[..length - TAG_SIZE]) != s[length - TAG_SIZE..length] then Failed
      else Got(st, FromBigEndian(s[8..16]), s[HEADER_SIZE..length - TAG_SIZE])
  }

  /**
   * What the process answers is what the driver gets: the same status, request number and data. A successful
   * read carries a sector, everything else carries nothing.
   */
  lemma ResponseRoundTrip(st: StatusCode, requestType: nat, rid: nat, content: Bytes, rest: Bytes, key: Bytes, mac: Mac)
    requires 1 <= requestType <= 2 && rid < Pow256(8)
    requires |content| == if st.Ok? && requestType == 1 then SECTOR_SIZE else 0
    ensures var bytes := Response(st, requestType, rid, content, key, mac);
            && Fetched(bytes + rest, key, mac) == Got(st, rid, content)
            && LengthOf(st, requestType + 0x40) == |bytes| && (bytes + rest)[7] == requestType + 0x40
  {
    var bytes := Response(st, requestType, rid, content, key, mac);
    var s := bytes + rest;
    var head := Magic() + [0, 0, CodeOf(st), requestType + 0x40];
    BigEndianRoundTrip(rid, 8);
    hide BigEndian;
    hide FromBigEndian;
    hide Pow256;
    var number, signed := BigEndian(rid, 8), head + BigEndian(rid, 8) + content;
    var tag := mac(key, signed);
    assert s == head + number + (content + tag + rest);
    Parts(head, number, content + tag + rest);
    assert s[..4] == s[..8][..4] && s[6] == s[..8][6] && s[7] == s[..8][7];
    assert s == signed + tag + rest;
    Parts(signed, tag, rest);
    assert s == head + number + content + (tag + rest);
    Parts(head + number, content, tag + rest);
  }

  /** A response byte by byte: header, status, type, request number, contents and tag. */
  lemma ResponseBytes(st: StatusCode, requestType: nat, rid: nat, content: Bytes, key: Bytes, mac: Mac)
    requires 1 <= requestType <= 2 && |content| == if st.Ok? && requestType == 1 then SECTOR_SIZE else 0
    ensures var b := Response(st, requestType, rid, content, key, mac);
            var status := match st case Ok => 0 case AuthFailure => 1 case InvalidSectorIndex => 2;
            && |b| == (if st.Ok? && requestType == 1 then 4144 else 48)
            && b[..8] == [0x61, 0x74, 0x64, 0x64, 0, 0, status, if requestType == 1 then 0x41 else 0x42]
            && b[8..16] == BigEndian(rid, 8) && b[16..|b| - 32] == content && b[|b| - 32..] == mac(key, b[..|b| - 32])
  {
    hide BigEndian;
    var head: Bytes := Magic() + [0, 0, CodeOf(st), requestType + 0x40];
    var number, signed := BigEndian(rid, 8), head + BigEndian(rid, 8) + content;
    var b, tag := Response(st, requestType, rid, content, key, mac), mac(key, signed);
    assert b == head + number + (content + tag);
    Parts(head, number, content + tag);
    assert b == (head + number) + content + tag;
    Parts(head + number, content, tag);
    assert b == signed + tag + [];
    Parts(signed, tag, []);
  }

  // ---------- What the driver accepts ----------

  /** The length of the response at the front of `s`, by its status and type bytes. */
  function FrameLength(s: Bytes): nat
    requires |s| >= 8
  {
    if s[6] == 0 && s[7] == 0x41 then 4144 else 48
  }

  /** The magic number, a known status byte, enough bytes, and the right tag on all of them. */
  ghost predicate Acceptable(s: Bytes, key: Bytes, mac: Mac) {
    && |s| >= 48 && s[..4] == [0x61, 0x74, 0x64, 0x64] && s[6] <= 2 && |s| >= FrameLength(s)
    && mac(key, s[..FrameLength(s) - 32]) == s[FrameLength(s) - 32..FrameLength(s)]
  }

  /** Exactly acceptable responses are decoded, to the bytes in their places. */
  lemma FetchedIff(s: Bytes, key: Bytes, mac: Mac)
    ensures var r := Fetched(s, key, mac);
            && (r.Got? <==> Acceptable(s, key, mac))
            && (r.Misaligned? <==> |s| >= 48 && s[..4] != [0x61, 0x74, 0x64, 0x64])
            && (r.Got? || r.Misaligned? || r.Failed?)
            && (r.Got? ==>
                  && r.status == (if s[6] == 0 then Ok else if s[6] == 1 then AuthFailure else InvalidSectorIndex)
                  && r.ident == FromBigEndian(s[8..16]) && r.data == s[16..FrameLength(s) - 32])
  {
  }

  // ---------- A sequence of responses ----------

  /** One response: what the process answered to a read (`requestType` 1) or a write (2). */
  datatype Reply = Reply(st: StatusCode, requestType: nat, rid: nat, content: Bytes)

  predicate ReplyOk(r: Reply) {
    && 1 <= r.requestType <= 2 && r.rid < Pow256(8)
    && |r.content| == if r.st.Ok? && r.requestType == 1 then SECTOR_SIZE else 0
  }

  function Bytewise(r: Reply, key: Bytes, mac: Mac): (b: Bytes)
    requires ReplyOk(r)
    ensures |b| >= MIN_RESPONSE
  {
    Response(r.st, r.requestType, r.rid, r.content, key, mac)
  }

  /** The responses one after the other. */
  function Replies(rs: seq<Reply>, key: Bytes, mac: Mac): Bytes
    requires forall i :: 0 <= i < |rs| ==> ReplyOk(rs[i])
  {
    if rs == [] then [] else Bytewise(rs[0], key, mac) + Replies(rs[1..], key, mac)
  }

  function Decoded(r: Reply): (f: Fetch)
    ensures f.Got?
  {
    Got(r.st, r.rid, r.content)
  }

  /** The first of a sequence of responses is decoded, and the others remain. */
  lemma FirstReply(rs: seq<Reply>, key: Bytes, mac: Mac)
    requires rs != [] && forall i :: 0 <= i < |rs| ==> ReplyOk(rs[i])
    ensures var s := Replies(rs, key, mac);
            && Fetched(s, key, mac) == Decoded(rs[0]) && |s| >= 8
            && FrameLength(s) == |Bytewise(rs[0], key, mac)|
            && s[|Bytewise(rs[0], key, mac)|..] == Replies(rs[1..], key, mac)
  {
    hide Fetched;
    hide Response;
    hide BigEndian;
    hide FromBigEndian;
    hide Pow256;
    var r, b := rs[0], Bytewise(rs[0], key, mac);
    var rest := Replies(rs[1..], key, mac);
    ResponseRoundTrip(r.st, r.requestType, r.rid, r.content, rest, key, mac);
    FetchedIff(b + rest, key, mac);
    hide Acceptable;
    assert (b + rest)[|b|..] == rest;
  }

  /** One response fewer is awaited. */
  lemma OneFewer(accepted: Byte, done: Byte)
    requires accepted != done
    ensures (accepted - (done + 1) % 256) % 256 == (accepted - done) % 256 - 1
  {
  }

  /** The connection of the driver: the bytes not yet read, the parse buffer and the window of pending commands. */
  class TcpClient {
    const key: Bytes
    const mac: Mac
    var stream: Bytes
    const buf: array<Byte>
    var pos: nat
    var status: StatusCode
    var ident: nat
    var completed: bool
    var accepted: Byte
    var done: Byte

    /** Between calls the buffer is empty, or holds the first part of a response whose rest did not arrive. */
    ghost predicate Valid()
      reads this, buf
    {
      buf.Length == MAX_RESPONSE && (pos == 0 || (pos == MIN_RESPONSE && buf[..4] == Magic()))
    }

    /** Everything received and not yet returned. */
    ghost function Incoming(): Bytes
      reads this, buf
      requires Valid()
    {
      buf[..pos] + stream
    }

    constructor (key: Bytes, mac: Mac)
      ensures Valid() && fresh(buf) && this.key == key && this.mac == mac
      ensures stream == [] && pos == 0 && accepted == 0 && done == 0 && !completed
    {
      this.key, this.mac := key, mac;
      stream, pos, accepted, done := [], 0, 0, 0;
      status, ident, completed := Ok, 0, false;
      buf := new Byte[MAX_RESPONSE];
    }

    /** Bytes arrive from the process. */
    method Receive(bytes: Bytes)
      requires Valid()
      modifies this`stream
      ensures Valid() && Incoming() == old(Incoming()) + bytes && pos == old(pos)
    {
      stream := stream + bytes;
    }

    /** A command has been sent, so one more response is awaited. */
    method Await()
      modifies this`accepted
      ensures accepted == (old(accepted) + 1) % 256
    {
      accepted := (accepted + 1) % 256;
    }

    /** Read up to `limit` bytes into the buffer; a stream that ends before that is an error and is used up. */
    method ReadTo(limit: nat) returns (ok: bool)
      requires buf.Length == MAX_RESPONSE && pos <= limit <= MAX_RESPONSE
      modifies this`stream, this`pos, buf
      ensures ok == (limit - old(pos) <= |old(stream)|)
      ensures ok ==> pos == limit && stream == old(stream)[limit - old(pos)..]
      ensures ok ==> buf[..limit] == old(buf[..pos]) + old(stream)[..limit - old(pos)]
      ensures !ok ==> pos == old(pos) && stream == [] && buf[..] == old(buf[..])
    {
      var k := limit - pos;
      if |stream| < k {
        stream := [];
        return false;
      }
      forall i | 0 <= i < k {
        buf[pos + i] := stream[i];
      }
      stream := stream[k..];
      pos := limit;
      ok := true;
    }

    /** Read the first 48 bytes, unless an earlier call already has, and insist on the magic number. */
    method ReadHead() returns (r: Fetch)
      requires Valid()
      modifies this`stream, this`pos, buf
      ensures r == if |old(Incoming())| < MIN_RESPONSE then Failed
                   else if old(Incoming())[..4] != Magic() then Misaligned else Nothing
      ensures r.Nothing? ==> Valid() && pos == MIN_RESPONSE && Incoming() == old(Incoming())
      ensures r.Failed? ==> Valid() && stream == []
    {
      ghost var incoming := Incoming();
      if pos < MIN_RESPONSE {
        var ok := ReadTo(MIN_RESPONSE);
        if !ok {
          return Failed;
        }
        assert buf[..pos] == incoming[..MIN_RESPONSE];
        if buf[..4] != Magic() {
          return Misaligned;
        }
      }
      assert Incoming() == incoming;
      r := Nothing;
    }

    /** `atdd_fetch_command`: the next response, its status, request number and data. */
    method FetchCommand() returns (r: Fetch)
      requires Valid()
      modifies this, buf
      ensures old(accepted == done) ==> r == Nothing && stream == old(stream) && pos == old(pos) && done == old(done)
      ensures old(accepted != done) ==> r == Fetched(old(Incoming()), key, mac)
      ensures old(accepted != done) ==>
                var s := old(Incoming());
                && (r.Got? <==> Acceptable(s, key, mac))
                && (r.Misaligned? <==> |s| >= 48 && s[..4] != [0x61, 0x74, 0x64, 0x64])
                && (r.Got? || r.Misaligned? || r.Failed?)
                && (r.Got? ==>
                      && r.status == (if s[6] == 0 then Ok else if s[6] == 1 then AuthFailure else InvalidSectorIndex)
                      && r.ident == FromBigEndian(s[8..16]) && r.data == s[16..FrameLength(s) - 32]
                      && stream == s[FrameLength(s)..])
      ensures !r.Misaligned? ==> Valid()
      ensures r.Got? ==> pos == 0 && !completed && done == (old(done) + 1) % 256
      ensures !r.Got? ==> done == old(done)
      ensures accepted == old(accepted)
    {
      if accepted == done {
        return Nothing;
      }
      hide Fetched;
      hide Acceptable;
      hide FromBigEndian;
      FetchedIff(Incoming(), key, mac);
      r := FetchResponse();
    }

    /** A response is awaited: read it, check it, and count it as done. */
    method FetchResponse() returns (r: Fetch)
      requires Valid()
      modifies this, buf
      ensures r == Fetched(old(Incoming()), key, mac)
      ensures !r.Misaligned? ==> Valid()
      ensures r.Got? ==> pos == 0 && !completed && done == (old(done) + 1) % 256
      ensures r.Got? ==> stream == old(Incoming())[LengthOf(r.status, old(Incoming())[7])..]
      ensures !r.Got? ==> done == old(done)
      ensures accepted == old(accepted)
    {
      hide FromBigEndian;
      ghost var incoming := Incoming();
      r := ReadHead();
      if !r.Nothing? {
        return;
      }
      assert buf[..MIN_RESPONSE] == incoming[..MIN_RESPONSE];
      assert forall i :: 0 <= i < MIN_RESPONSE ==> buf[i] == incoming[..MIN_RESPONSE][i];
      if StatusOf(buf[6]).None? {
        pos := 0;
        return Failed;
      }
      status := StatusOf(buf[6]).value;
      assert buf[8..16] == incoming[8..16];
      ident := FromBigEndian(buf[8..16]);
      var limit := if status.Ok? && buf[7] == READ_RESPONSE then MAX_RESPONSE else MIN_RESPONSE;
      assert limit == LengthOf(status, incoming[7]);
      var data := ReadRest(limit, incoming);
      if data.None? {
        return Failed;
      }
      r := Got(status, ident, data.value);
      pos := 0;
      completed := false;
      done := (done + 1) % 256;
    }

    /** Read the rest of a response of `limit` bytes and check its tag; `None` on either failure. */
    method ReadRest(limit: nat, ghost incoming: Bytes) returns (data: Option<Bytes>)
      requires Valid() && pos == MIN_RESPONSE && Incoming() == incoming && (limit == MIN_RESPONSE || limit == MAX_RESPONSE)
      modifies this`stream, this`pos, this`completed, buf
      ensures data == if limit <= |incoming| && mac(key, incoming[..limit - TAG_SIZE]) == incoming[limit - TAG_SIZE..limit]
                      then Some(incoming[HEADER_SIZE..limit - TAG_SIZE]) else None
      ensures data.Some? ==> stream == incoming[limit..]
      ensures data.None? ==> Valid()
    {
      var ok := ReadTo(limit);
      if !ok {
        return None;
      }
      assert buf[..limit] == incoming[..limit];
      completed := true;
      var signed, tag := buf[..limit - TAG_SIZE], buf[limit - TAG_SIZE..limit];
      assert signed == incoming[..limit - TAG_SIZE] && tag == incoming[limit - TAG_SIZE..limit];
      if mac(key, signed) != tag {
        pos := 0;
        return None;
      }
      assert buf[HEADER_SIZE..limit - TAG_SIZE] == incoming[HEADER_SIZE..limit - TAG_SIZE];
      data := Some(buf[HEADER_SIZE..limit - TAG_SIZE]);
    }

    /** How many responses are awaited; positions wrap around. */
    function Awaited(): (k: nat)
      reads this
      ensures k == 0 <==> accepted == done
    {
      (accepted - done) % 256
    }

    /** A fetch with responses on the way returns the first of them. */
    method FetchNext(ghost rs: seq<Reply>) returns (r: Fetch)
      requires Valid() && forall i :: 0 <= i < |rs| ==> ReplyOk(rs[i])
      requires Incoming() == Replies(rs, key, mac) && Awaited() == |rs|
      modifies this, buf
      ensures Valid()
      ensures rs == [] ==> r == Nothing && Incoming() == [] && Awaited() == 0
      ensures rs != [] ==> r == Decoded(rs[0]) && Incoming() == Replies(rs[1..], key, mac) && Awaited() == |rs| - 1
    {
      hide Fetched;
      hide Acceptable;
      hide FromBigEndian;
      if accepted != done {
        OneFewer(accepted, done);
        FirstReply(rs, key, mac);
      }
      r := FetchCommand();
      assert buf[..0] == [];
    }

    /** The driver's loop: fetch until nothing is awaited or a fetch fails. */
    method FetchAll(ghost rs: seq<Reply>) returns (got: seq<Fetch>)
      requires Valid() && forall i :: 0 <= i < |rs| ==> ReplyOk(rs[i])
      requires Incoming() == Replies(rs, key, mac) && Awaited() == |rs|
      modifies this, buf
      ensures Valid() && Awaited() == 0 && Incoming() == []
      ensures |got| == |rs| && forall i :: 0 <= i < |rs| ==> got[i] == Decoded(rs[i])
    {
      hide Bytewise;
      hide ReplyOk;
      hide Decoded;
      hide Replies;
      hide Awaited;
      got := [];
      ghost var left := rs;
      var r := FetchNext(left);
      while r.Got?
        invariant Valid() && |got| <= |rs| && left == rs[|got|..]
        invariant left == [] ==> r.Nothing? && Awaited() == 0 && Incoming() == []
        invariant left != [] ==> r == Decoded(left[0]) && Incoming() == Replies(left[1..], key, mac) && Awaited() == |left| - 1
        invariant forall i :: 0 <= i < |got| ==> got[i] == Decoded(rs[i])
        decreases |left|
      {
        got := got + [r];
        left := left[1..];
        r := FetchNext(left);
      }
    }
  }
}
