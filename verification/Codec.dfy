/** Reading and writing register commands on a byte stream. */
module Codec {
  import opened Domain
  import opened Wire

  /** What one call of the reader yields; `BadType` is the unwrap of an unknown message type. */
  datatype Outcome = Parsed(command: RegisterCommand, valid: bool, consumed: nat) | Short | BadType(consumed: nat)

  // ---------- What the reader computes ----------

  predicate MagicAt(s: Bytes, i: nat) {
    i + 4 <= |s| && s[i..i + 4] == Magic()
  }

  /** The position of the first magic number, or the length of `s`. */
  function FindMagic(s: Bytes): (i: nat)
    ensures i == |s| || MagicAt(s, i)
  {
    if |s| < 4 then |s|
    else if s[..4] == Magic() then 0
    else
      var i := FindMagic(s[1..]);
      MagicShift(s, i);
      i + 1
  }

  lemma MagicShift(s: Bytes, i: nat)
    requires s != []
    ensures MagicAt(s[1..], i) <==> MagicAt(s, i + 1)
  {
    if i + 5 <= |s| {
      assert s[1..][i..i + 4] == s[i + 1..i + 1 + 4];
    }
  }

  /** The command of type `t` with the given body. */
  function Decoded(t: Byte, rank: Byte, body: Bytes): (c: RegisterCommand)
    requires KnownType(t) && |body| == BodySize(t)
    ensures TypeOf(c) == t
  {
    if ClientType(t) then
      Client(FromBigEndian(body[..8]), FromBigEndian(body[8..16]), if t == 1 then Read else Write(body[16..]))
    else
      System(rank, body[..16], FromBigEndian(body[16..24]),
             match t
             case 3 => ReadProcContent
             case 4 => ValueContent(FromBigEndian(body[24..32]), body[39], body[40..])
             case 5 => WriteProcContent(FromBigEndian(body[24..32]), body[39], body[40..])
             case _ => AckContent)
  }

  /** Reading at a magic number. */
  function ParseHere(s: Bytes, systemKey: Bytes, clientKey: Bytes, mac: Mac): Outcome {
    if |s| < 8 then Short
    else if !KnownType(s[7]) then BadType(8)
    else
      var end := 8 + BodySize(s[7]);
      if |s| < end + TAG_SIZE then Short
      else
        Parsed(Decoded(s[7], s[6], s[8..end]),
               mac(KeyFor(s[7], systemKey, clientKey), s[..end]) == s[end..end + TAG_SIZE],
               end + TAG_SIZE)
  }

  function Skip(out: Outcome, k: nat): Outcome {
    match out
    case Parsed(c, valid, n) => Parsed(c, valid, n + k)
    case Short => Short
    case BadType(n) => BadType(n + k)
  }

  function Deserialized(s: Bytes, systemKey: Bytes, clientKey: Bytes, mac: Mac): Outcome {
    var i := FindMagic(s);
    if i == |s| then Short else Skip(ParseHere(s[i..], systemKey, clientKey, mac), i)
  }

  // ---------- Round trips ----------

  lemma FieldsDecode(c: RegisterCommand)
    requires Encodable(c)
    ensures |Body(c)| == BodySize(TypeOf(c)) && Decoded(TypeOf(c), if c.System? then c.rank else 0, Body(c)) == c
  {
    BodyLength(c);
    var b := Body(c);
    BigEndianRoundTrip(c.sector, 8);
    if c.Client? {
      BigEndianRoundTrip(c.rid, 8);
      assert b[..8] == BigEndian(c.rid, 8) && b[8..16] == BigEndian(c.sector, 8);
    } else {
      assert b[..16] == c.ident && b[16..24] == BigEndian(c.sector, 8);
      if c.content.ValueContent? || c.content.WriteProcContent? {
        BigEndianRoundTrip(c.content.ts, 8);
        assert b[24..32] == BigEndian(c.content.ts, 8) && b[39] == c.content.wr && b[40..] == c.content.data;
      }
    }
  }

  /** What was serialised is read back, with a valid tag, and nothing beyond it is consumed. */
  lemma ParseSerialized(c: RegisterCommand, rest: Bytes, systemKey: Bytes, clientKey: Bytes, mac: Mac)
    requires Encodable(c)
    ensures var key := if c.Client? then clientKey else systemKey;
            ParseHere(Serialized(c, key, mac) + rest, systemKey, clientKey, mac) ==
            Parsed(c, true, |Serialized(c, key, mac)|)
  {
    var key := KeyFor(TypeOf(c), systemKey, clientKey);
    var s := Serialized(c, key, mac) + rest;
    FieldsDecode(c);
    var head, body, tag := Header(c), Body(c), mac(key, Header(c) + Body(c));
    assert s == head + body + (tag + rest);
    Parts(head, body, tag + rest);
    assert s[7] == s[..8][7] && s[6] == s[..8][6];
    Parts(head + body, tag, rest);
    hide Header;
    hide Body;
    hide Decoded;
  }

  ghost predicate HasMagic(s: Bytes) {
    exists i: nat :: MagicAt(s, i)
  }

  /** The magic number does not overlap itself, so none can begin in the prefix and end beyond it. */
  lemma NoMagicAcross(prefix: Bytes, s: Bytes)
    requires prefix != [] && |s| >= 4 && s[..4] == Magic() && !HasMagic(prefix)
    ensures (prefix + s)[..4] != Magic()
  {
    var t := prefix + s;
    if |prefix| >= 4 {
      assert !MagicAt(prefix, 0) && t[..4] == prefix[0..4];
    } else {
      var k := |prefix|;
      assert t[k] == s[..4][0];
      assert t[..4][k] == 0x61;
    }
  }

  lemma {:induction false} FindMagicAfter(prefix: Bytes, s: Bytes)
    requires |s| >= 4 && s[..4] == Magic() && !HasMagic(prefix)
    ensures FindMagic(prefix + s) == |prefix|
  {
    var t := prefix + s;
    if prefix == [] {
      assert t == s;
    } else {
      NoMagicAcross(prefix, s);
      forall i: nat | MagicAt(prefix[1..], i) ensures MagicAt(prefix, i + 1) {
        MagicShift(prefix, i);
      }
      FindMagicAfter(prefix[1..], s);
      assert t[1..] == prefix[1..] + s;
    }
  }

  /**
   * After any garbage that does not contain the magic number, the reader resynchronises, returns the command
   * with a valid tag, and consumes the garbage and the command and nothing more.
   */
  lemma RoundTrip(prefix: Bytes, c: RegisterCommand, rest: Bytes, systemKey: Bytes, clientKey: Bytes, mac: Mac)
    requires Encodable(c) && !HasMagic(prefix)
    ensures var bytes := Serialized(c, if c.Client? then clientKey else systemKey, mac);
            Deserialized(prefix + bytes + rest, systemKey, clientKey, mac) == Parsed(c, true, |prefix| + |bytes|)
  {
    var bytes := Serialized(c, if c.Client? then clientKey else systemKey, mac);
    var s := bytes + rest;
    assert s[..4] == Header(c)[..4];
    FindMagicAfter(prefix, s);
    assert prefix + bytes + rest == prefix + s;
    assert (prefix + s)[|prefix|..] == s;
    ParseSerialized(c, rest, systemKey, clientKey, mac);
  }

  // ---------- Framing ----------

  /** Commands one after the other, each under the key of its kind. */
  function Stream(cs: seq<RegisterCommand>, systemKey: Bytes, clientKey: Bytes, mac: Mac): Bytes {
    if cs == [] then []
    else
      Serialized(cs[0], if cs[0].Client? then clientKey else systemKey, mac) + Stream(cs[1..], systemKey, clientKey, mac)
  }

  /** Reading again and again until the stream runs out. */
  function ReadAll(s: Bytes, systemKey: Bytes, clientKey: Bytes, mac: Mac): seq<(RegisterCommand, bool)>
    decreases |s|
  {
    var out := Deserialized(s, systemKey, clientKey, mac);
    if out.Parsed? && 0 < out.consumed <= |s| then
      [(out.command, out.valid)] + ReadAll(s[out.consumed..], systemKey, clientKey, mac)
    else []
  }

  lemma SerializedNonEmpty(c: RegisterCommand, key: Bytes, mac: Mac)
    ensures |Serialized(c, key, mac)| >= 8
  {
  }

  function AllValid(cs: seq<RegisterCommand>): seq<(RegisterCommand, bool)> {
    if cs == [] then [] else [(cs[0], true)] + AllValid(cs[1..])
  }

  /** A stream of commands is read back as the same commands, all valid. */
  lemma {:induction false} StreamRoundTrip(cs: seq<RegisterCommand>, systemKey: Bytes, clientKey: Bytes, mac: Mac)
    requires forall i :: 0 <= i < |cs| ==> Encodable(cs[i])
    ensures ReadAll(Stream(cs, systemKey, clientKey, mac), systemKey, clientKey, mac) == AllValid(cs)
  {
    hide Serialized;
    hide Deserialized;
    if cs != [] {
      var key := if cs[0].Client? then clientKey else systemKey;
      var first := Serialized(cs[0], key, mac);
      var rest := Stream(cs[1..], systemKey, clientKey, mac);
      SerializedNonEmpty(cs[0], key, mac);
      RoundTrip([], cs[0], rest, systemKey, clientKey, mac);
      assert [] + first + rest == first + rest;
      assert (first + rest)[|first|..] == rest;
      StreamRoundTrip(cs[1..], systemKey, clientKey, mac);
    }
  }

  /** From the magic number on, the length of a message depends on its type alone, whatever its tag. */
  lemma LengthByType(s: Bytes, systemKey: Bytes, clientKey: Bytes, mac: Mac)
    requires |s| >= 8 && s[..4] == Magic() && 1 <= s[7] <= 6
    ensures var out := Deserialized(s, systemKey, clientKey, mac);
            var length := if s[7] == 1 then 56 else if s[7] == 2 then 4152 else if s[7] == 3 || s[7] == 6 then 64 else 4176;
            if |s| < length then out == Short else out.Parsed? && out.consumed == length
  {
  }

  /** An unknown message type stops the reader after the garbage, the magic number and the four bytes after it. */
  lemma UnknownTypeStops(prefix: Bytes, header: Bytes, rest: Bytes, systemKey: Bytes, clientKey: Bytes, mac: Mac)
    requires !HasMagic(prefix) && |header| == 8 && header[..4] == Magic() && !(1 <= header[7] <= 6)
    ensures Deserialized(prefix + header + rest, systemKey, clientKey, mac) == BadType(|prefix| + 8)
  {
    var s := header + rest;
    assert s[..4] == header[..4];
    FindMagicAfter(prefix, s);
    assert prefix + header + rest == prefix + s;
    assert (prefix + s)[|prefix|..] == s;
  }

  /** The bytes the reader ignores: two of the header, a third in client messages, and seven before a write rank. */
  predicate ZeroPadding(s: Bytes)
    requires |s| >= 8 && KnownType(s[7]) && |s| >= 8 + BodySize(s[7])
  {
    && s[4] == 0 && s[5] == 0 && (ClientType(s[7]) ==> s[6] == 0)
    && (s[7] == 4 || s[7] == 5 ==> s[40..47] == [0, 0, 0, 0, 0, 0, 0])
  }

  /** Values and write requests: only the seven bytes before the rank are lost. */
  lemma AdvancedBody(t: Byte, rank: Byte, body: Bytes)
    requires (t == 4 || t == 5) && |body| == BodySize(t)
    ensures Encodable(Decoded(t, rank, body))
    ensures Body(Decoded(t, rank, body)) == body[..32] + [0, 0, 0, 0, 0, 0, 0] + body[39..]
  {
    hide BigEndian;
    hide FromBigEndian;
    hide Pow256;
    FromBigEndianRoundTrip(body[16..24]);
    FromBigEndianRoundTrip(body[24..32]);
    assert body[..32] == body[..16] + body[16..24] + body[24..32];
    assert body[39..] == [body[39]] + body[40..];
  }

  lemma DecodedBody(t: Byte, rank: Byte, body: Bytes)
    requires KnownType(t) && |body| == BodySize(t)
    ensures Encodable(Decoded(t, rank, body)) && |Body(Decoded(t, rank, body))| == |body|
    ensures Body(Decoded(t, rank, body)) == body <==> (t == 4 || t == 5 ==> body[32..39] == [0, 0, 0, 0, 0, 0, 0])
  {
    hide BigEndian;
    hide FromBigEndian;
    hide Pow256;
    if ClientType(t) {
      FromBigEndianRoundTrip(body[..8]);
      FromBigEndianRoundTrip(body[8..16]);
      assert body == body[..8] + body[8..16] + body[16..];
    } else if t == 4 || t == 5 {
      AdvancedBody(t, rank, body);
      var pad: Bytes := [0, 0, 0, 0, 0, 0, 0];
      assert body == body[..32] + body[32..39] + body[39..];
      assert (body[..32] + pad + body[39..])[32..39] == pad;
    } else {
      FromBigEndianRoundTrip(body[16..24]);
      assert body == body[..16] + body[16..24] + [];
    }
  }

  /** A message read with a valid tag is the serialisation of what was read exactly when its padding is zero. */
  lemma SerializeParsed(s: Bytes, systemKey: Bytes, clientKey: Bytes, mac: Mac)
    requires |s| >= 4 && s[..4] == Magic()
    requires ParseHere(s, systemKey, clientKey, mac).Parsed? && ParseHere(s, systemKey, clientKey, mac).valid
    ensures var out := ParseHere(s, systemKey, clientKey, mac);
            Serialized(out.command, if out.command.Client? then clientKey else systemKey, mac) == s[..out.consumed]
            <==> ZeroPadding(s)
  {
    var out := ParseHere(s, systemKey, clientKey, mac);
    var end, key := 8 + BodySize(s[7]), KeyFor(s[7], systemKey, clientKey);
    var c, body := out.command, s[8..end];
    DecodedBody(s[7], s[6], body);
    HeaderOf(s);
    assert s[7] == 4 || s[7] == 5 ==> body[32..39] == s[40..47];
    assert s[..end] == s[..8] + body;
    assert s[..out.consumed] == s[..end] + s[end..out.consumed];
    assert |Header(c)| == 8;
    hide Header;
    hide Body;
    hide Decoded;
    if Serialized(c, key, mac) == s[..out.consumed] {
      Parts(Header(c), Body(c), mac(key, Header(c) + Body(c)));
      assert s[..out.consumed][..8] == s[..8] && s[..out.consumed][8..end] == body;
    }
  }

  /** The header is rebuilt exactly when its padding is zero. */
  lemma HeaderOf(s: Bytes)
    requires |s| >= 8 && s[..4] == Magic() && KnownType(s[7]) && |s| >= 8 + BodySize(s[7])
    ensures Header(Decoded(s[7], s[6], s[8..8 + BodySize(s[7])])) == s[..8] <==>
            s[4] == 0 && s[5] == 0 && (ClientType(s[7]) ==> s[6] == 0)
  {
  }
}
