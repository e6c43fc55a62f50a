/** The format of register commands on the wire. */
module Wire {
  import opened Domain

  type Bytes = seq<Byte>

  const TAG_SIZE := 32
  const IDENT_SIZE := 16

  function Magic(): (m: Bytes)
    ensures |m| == 4
  {
    [0x61, 0x74, 0x64, 0x64]
  }

  /** The keyed hash: any function of key and message with a 32-byte result. */
  type Mac = f: (Bytes, Bytes) -> Bytes | forall k, b :: |f(k, b)| == 32
    witness (k: Bytes, b: Bytes) => seq(32, (_: nat) => 0 as Byte)

  /** The parts of a concatenation. */
  lemma Parts(a: Bytes, b: Bytes, c: Bytes)
    ensures (a + b + c)[..|a|] == a && (a + b + c)[|a|..|a| + |b|] == b
  {
  }

  // ---------- Big-endian numbers ----------

  function Pow256(k: nat): nat {
    if k == 0 then 1 else 256 * Pow256(k - 1)
  }

  function BigEndian(n: nat, k: nat): (b: Bytes)
    ensures |b| == k
  {
    if k == 0 then [] else BigEndian(n / 256, k - 1) + [n % 256]
  }

  function FromBigEndian(b: Bytes): nat {
    if b == [] then 0 else FromBigEndian(b[..|b| - 1]) * 256 + b[|b| - 1]
  }

  lemma {:induction false} BigEndianRoundTrip(n: nat, k: nat)
    requires n < Pow256(k)
    ensures FromBigEndian(BigEndian(n, k)) == n
  {
    if k > 0 {
      BigEndianRoundTrip(n / 256, k - 1);
      assert BigEndian(n, k)[..k - 1] == BigEndian(n / 256, k - 1);
    }
  }

  lemma {:induction false} FromBigEndianRoundTrip(b: Bytes)
    ensures FromBigEndian(b) < Pow256(|b|) && BigEndian(FromBigEndian(b), |b|) == b
  {
    if b != [] {
      FromBigEndianRoundTrip(b[..|b| - 1]);
      assert b == b[..|b| - 1] + [b[|b| - 1]];
    }
  }

  lemma QuotientIs(n: nat, d: nat, q: nat, r: nat)
    requires d > 0 && n == q * d + r && r < d
    ensures n / d == q
  {
    var q1, r1 := n / d, n % d;
    assert n == q1 * d + r1;
    if q1 < q {
      Larger(q1, q, d);
    } else if q < q1 {
      Larger(q, q1, d);
    }
  }

  lemma Larger(x: nat, y: nat, d: nat)
    requires x < y
    ensures (x + 1) * d <= y * d
  {
  }

  lemma Euclid(q: nat, b: nat)
    requires b > 0
    ensures q == (q / b) * b + q % b && q % b < b
  {
  }

  lemma Product(a: nat, q: nat, b: nat)
    ensures q * (a * b) == a * (q * b)
  {
  }

  /** Dividing by 256 and then by `b` is dividing by their product. */
  lemma DivTwice(n: nat, b: nat)
    requires b > 0
    ensures n / 256 / b == n / (256 * b)
  {
    var q := n / 256;
    var q1, r1 := q / b, q % b;
    Euclid(q, b);
    var x := q1 * b;
    assert n == 256 * x + (256 * r1 + n % 256);
    Product(256, q1, b);
    QuotientIs(n, 256 * b, q1, 256 * r1 + n % 256);
  }

  lemma {:induction false} Pow256Positive(k: nat)
    ensures Pow256(k) > 0
  {
    if k > 0 {
      Pow256Positive(k - 1);
    }
  }

  /** Byte `i` counts units of 256 to the number of bytes after it. */
  lemma {:induction false} BigEndianByte(n: nat, k: nat, i: nat)
    requires i < k
    ensures Pow256(k - 1 - i) > 0 && BigEndian(n, k)[i] == n / Pow256(k - 1 - i) % 256
  {
    Pow256Positive(k - 1 - i);
    if i < k - 1 {
      BigEndianByte(n / 256, k - 1, i);
      assert BigEndian(n, k)[i] == BigEndian(n / 256, k - 1)[i];
      DivTwice(n, Pow256(k - 2 - i));
    }
  }

  // ---------- Commands ----------

  datatype SystemContent =
    | ReadProcContent
    | ValueContent(ts: nat, wr: Byte, data: Data)
    | WriteProcContent(ts: nat, wr: Byte, data: Data)
    | AckContent

  datatype RegisterCommand =
    | Client(rid: nat, sector: nat, cmd: Command)
    | System(rank: Byte, ident: Bytes, sector: nat, content: SystemContent)

  /** Numbers fit 64 bits, sectors have 4096 bytes and identifiers 16. */
  predicate Encodable(c: RegisterCommand) {
    && c.sector < Pow256(8)
    && match c
       case Client(rid, _, cmd) => rid < Pow256(8) && (cmd.Write? ==> |cmd.data| == SECTOR_SIZE)
       case System(_, ident, _, content) =>
         && |ident| == IDENT_SIZE
         && (content.ValueContent? || content.WriteProcContent? ==>
               content.ts < Pow256(8) && |content.data| == SECTOR_SIZE)
  }

  function TypeOf(c: RegisterCommand): Byte {
    match c
    case Client(_, _, Read) => 0x01
    case Client(_, _, Write(_)) => 0x02
    case System(_, _, _, ReadProcContent) => 0x03
    case System(_, _, _, ValueContent(_, _, _)) => 0x04
    case System(_, _, _, WriteProcContent(_, _, _)) => 0x05
    case System(_, _, _, AckContent) => 0x06
  }

  predicate KnownType(t: Byte) {
    1 <= t <= 6
  }

  /** Client messages have types 1 and 2. */
  predicate ClientType(t: Byte) {
    t <= 2
  }

  /** How many bytes lie between the eight-byte header and the tag, by message type. */
  function BodySize(t: Byte): nat
    requires KnownType(t)
  {
    match t
    case 1 => 16
    case 2 => 16 + SECTOR_SIZE
    case 3 => 24
    case 6 => 24
    case _ => 40 + SECTOR_SIZE
  }

  function Header(c: RegisterCommand): (h: Bytes)
    ensures |h| == 8 && h[..4] == Magic() && h[7] == TypeOf(c)
  {
    Magic() + [0, 0, if c.System? then c.rank else 0, TypeOf(c)]
  }

  function Body(c: RegisterCommand): Bytes {
    match c
    case Client(rid, sector, cmd) =>
      BigEndian(rid, 8) + BigEndian(sector, 8) + (if cmd.Write? then cmd.data else [])
    case System(_, ident, sector, content) =>
      ident + BigEndian(sector, 8) +
      match content
      case ReadProcContent => []
      case AckContent => []
      case ValueContent(ts, wr, data) => BigEndian(ts, 8) + [0, 0, 0, 0, 0, 0, 0, wr] + data
      case WriteProcContent(ts, wr, data) => BigEndian(ts, 8) + [0, 0, 0, 0, 0, 0, 0, wr] + data
  }

  lemma BodyLength(c: RegisterCommand)
    requires Encodable(c)
    ensures KnownType(TypeOf(c)) && |Body(c)| == BodySize(TypeOf(c))
  {
  }

  /** A command as bytes, followed by the tag of those bytes. */
  function Serialized(c: RegisterCommand, key: Bytes, mac: Mac): Bytes {
    Header(c) + Body(c) + mac(key, Header(c) + Body(c))
  }

  function KeyFor(t: Byte, systemKey: Bytes, clientKey: Bytes): Bytes {
    if ClientType(t) then clientKey else systemKey
  }

  // ---------- The bytes of each message ----------

  /** The header of each of the six messages, byte by byte, and the length of the whole. */
  lemma HeaderBytes(c: RegisterCommand, key: Bytes, mac: Mac)
    requires Encodable(c)
    ensures var b := Serialized(c, key, mac);
            match c
            case Client(_, _, Read) => |b| == 56 && b[..8] == [0x61, 0x74, 0x64, 0x64, 0, 0, 0, 0x01]
            case Client(_, _, Write(_)) => |b| == 4152 && b[..8] == [0x61, 0x74, 0x64, 0x64, 0, 0, 0, 0x02]
            case System(rank, _, _, ReadProcContent) => |b| == 64 && b[..8] == [0x61, 0x74, 0x64, 0x64, 0, 0, rank, 0x03]
            case System(rank, _, _, ValueContent(_, _, _)) =>
              |b| == 4176 && b[..8] == [0x61, 0x74, 0x64, 0x64, 0, 0, rank, 0x04]
            case System(rank, _, _, WriteProcContent(_, _, _)) =>
              |b| == 4176 && b[..8] == [0x61, 0x74, 0x64, 0x64, 0, 0, rank, 0x05]
            case System(rank, _, _, AckContent) => |b| == 64 && b[..8] == [0x61, 0x74, 0x64, 0x64, 0, 0, rank, 0x06]
  {
    BodyLength(c);
    hide BigEndian;
    assert Serialized(c, key, mac)[..8] == Header(c);
  }

  /** The last 32 bytes are the tag of everything before them. */
  lemma TagBytes(c: RegisterCommand, key: Bytes, mac: Mac)
    ensures var b := Serialized(c, key, mac);
            |b| >= 40 && b[|b| - 32..] == mac(key, b[..|b| - 32])
  {
    var signed, tag := Header(c) + Body(c), mac(key, Header(c) + Body(c));
    Parts(signed, tag, []);
    assert signed + tag + [] == signed + tag;
  }

  /** Where the fields of a client message are. */
  lemma ClientBytes(c: RegisterCommand, key: Bytes, mac: Mac)
    requires Encodable(c) && c.Client?
    ensures var b := Serialized(c, key, mac);
            && |b| >= 56 && b[8..16] == BigEndian(c.rid, 8) && b[16..24] == BigEndian(c.sector, 8)
            && (c.cmd.Write? ==> |b| == 4152 && b[24..4120] == c.cmd.data)
  {
    hide BigEndian;
    var b, head, rid, sector := Serialized(c, key, mac), Header(c), BigEndian(c.rid, 8), BigEndian(c.sector, 8);
    var data := if c.cmd.Write? then c.cmd.data else [];
    var tag := mac(key, head + Body(c));
    assert b == head + rid + (sector + data + tag);
    Parts(head, rid, sector + data + tag);
    assert b == (head + rid) + sector + (data + tag);
    Parts(head + rid, sector, data + tag);
    assert b == (head + rid + sector) + data + tag;
    Parts(head + rid + sector, data, tag);
  }

  /** Where the fields of a message between processes are. */
  lemma SystemBytes(c: RegisterCommand, key: Bytes, mac: Mac)
    requires Encodable(c) && c.System?
    ensures var b := Serialized(c, key, mac);
            && |b| >= 64 && b[8..24] == c.ident && b[24..32] == BigEndian(c.sector, 8)
            && (c.content.ValueContent? || c.content.WriteProcContent? ==>
                  && |b| == 4176 && b[32..40] == BigEndian(c.content.ts, 8)
                  && b[40..48] == [0, 0, 0, 0, 0, 0, 0, c.content.wr] && b[48..4144] == c.content.data)
  {
    hide BigEndian;
    var b, head, sector := Serialized(c, key, mac), Header(c), BigEndian(c.sector, 8);
    var tag, more := mac(key, head + Body(c)), Body(c)[24..];
    assert Body(c) == c.ident + sector + more;
    assert b == head + c.ident + (sector + more + tag);
    Parts(head, c.ident, sector + more + tag);
    assert b == (head + c.ident) + sector + (more + tag);
    Parts(head + c.ident, sector, more + tag);
    if c.content.ValueContent? || c.content.WriteProcContent? {
      VersionBytes(c, head + c.ident + sector, more, tag);
      assert b == head + c.ident + sector + more + tag;
    }
  }

  lemma VersionBytes(c: RegisterCommand, front: Bytes, more: Bytes, tag: Bytes)
    requires c.System? && |c.ident| == 16 && (c.content.ValueContent? || c.content.WriteProcContent?)
    requires |c.content.data| == 4096 && |front| == 32 && more == Body(c)[24..] && |tag| == 32
    ensures var b := front + more + tag;
            && |b| == 4176 && b[32..40] == BigEndian(c.content.ts, 8)
            && b[40..48] == [0, 0, 0, 0, 0, 0, 0, c.content.wr] && b[48..4144] == c.content.data
  {
    hide BigEndian;
    Version(c);
    hide Body;
    var ts, rank: Bytes, data := BigEndian(c.content.ts, 8), [0, 0, 0, 0, 0, 0, 0, c.content.wr], c.content.data;
    FourParts(front, ts, rank, data, tag);
    Flatten(front, ts, rank, data);
  }

  lemma Flatten(a: Bytes, b: Bytes, c: Bytes, d: Bytes)
    ensures a + (b + c + d) == a + b + c + d
  {
    assert a + (b + c) == a + b + c;
  }

  lemma Version(c: RegisterCommand)
    requires c.System? && |c.ident| == 16 && (c.content.ValueContent? || c.content.WriteProcContent?)
    ensures |Body(c)| >= 24
    ensures Body(c)[24..] == BigEndian(c.content.ts, 8) + [0, 0, 0, 0, 0, 0, 0, c.content.wr] + c.content.data
  {
    hide BigEndian;
    Rest(c.ident + BigEndian(c.sector, 8), BigEndian(c.content.ts, 8) + [0, 0, 0, 0, 0, 0, 0, c.content.wr] + c.content.data);
  }

  lemma Rest(a: Bytes, b: Bytes)
    ensures (a + b)[|a|..] == b
  {
  }

  lemma FourParts(a: Bytes, b: Bytes, c: Bytes, d: Bytes, e: Bytes)
    ensures var s := a + b + c + d + e; var i := |a|; var j := i + |b|; var k := j + |c|;
            s[i..j] == b && s[j..k] == c && s[k..k + |d|] == d
  {
    assert a + b + c + d + e == a + b + (c + d + e);
    Parts(a, b, c + d + e);
    assert a + b + c + d + e == (a + b) + c + (d + e);
    Parts(a + b, c, d + e);
    Parts(a + b + c, d, e);
  }
}
