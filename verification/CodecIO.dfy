/** The serialiser and the reader as they run: appending to a buffer, sliding over a stream, feeding the hash. */
module CodecIO {
  import opened Domain
  import opened Wire
  import opened Codec

  method SerializeClient(c: RegisterCommand) returns (buff: Bytes)
    requires c.Client?
    ensures buff == Header(c) + Body(c)
  {
    buff := Magic();
    var t: Byte := if c.cmd.Read? then 0x01 else 0x02;
    buff := buff + [0, 0, 0, t];
    buff := buff + BigEndian(c.rid, 8);
    buff := buff + BigEndian(c.sector, 8);
    if c.cmd.Write? {
      buff := buff + c.cmd.data;
    }
  }

  method SerializeSystem(c: RegisterCommand) returns (buff: Bytes)
    requires c.System?
    ensures buff == Header(c) + Body(c)
  {
    buff := Magic();
    var t: Byte := match c.content
      case ReadProcContent => 0x03
      case AckContent => 0x06
      case ValueContent(_, _, _) => 0x04
      case WriteProcContent(_, _, _) => 0x05;
    buff := buff + [0, 0, c.rank, t];
    buff := buff + c.ident;
    buff := buff + BigEndian(c.sector, 8);
    if c.content.ValueContent? || c.content.WriteProcContent? {
      buff := buff + BigEndian(c.content.ts, 8);
      buff := buff + [0, 0, 0, 0, 0, 0, 0, c.content.wr];
      buff := buff + c.content.data;
    }
  }

  method SerializeRc(c: RegisterCommand, key: Bytes, mac: Mac) returns (written: Bytes)
    ensures written == Serialized(c, key, mac)
  {
    var data;
    if c.Client? {
      data := SerializeClient(c);
    } else {
      data := SerializeSystem(c);
    }
    written := data + mac(key, data);
  }

  // ---------- The reader ----------

  lemma {:induction false} FindMagicIs(s: Bytes, i: nat)
    requires i <= |s| && (i < |s| ==> MagicAt(s, i)) && forall j: nat :: j < i ==> !MagicAt(s, j)
    ensures FindMagic(s) == i
  {
    if i > 0 && |s| >= 4 {
      assert !MagicAt(s, 0) && s[0..4] == s[..4];
      MagicShift(s, i - 1);
      forall j: nat | j < i - 1 ensures !MagicAt(s[1..], j) {
        MagicShift(s, j);
      }
      FindMagicIs(s[1..], i - 1);
    }
  }

  /** No magic number lies before the one that is found. */
  lemma {:induction false} FirstMagic(s: Bytes)
    ensures FindMagic(s) == |s| || MagicAt(s, FindMagic(s))
    ensures forall j: nat :: j < FindMagic(s) ==> !MagicAt(s, j)
  {
    if |s| >= 4 && s[..4] != Magic() {
      FirstMagic(s[1..]);
      forall j: nat | j < FindMagic(s) ensures !MagicAt(s, j) {
        if j > 0 {
          MagicShift(s, j - 1);
        }
      }
    }
  }

  /** A field of the body, seen in the stream. */
  lemma Field(s: Bytes, start: nat, end: nat, a: nat, b: nat)
    requires start + 8 <= end <= |s| && a <= b && start + 8 + b <= end
    ensures s[start..][8..end - start][a..b] == s[start + 8 + a..start + 8 + b]
  {
    var body := s[start..][8..end - start];
    assert body == s[start + 8..end];
    forall i | 0 <= i < b - a ensures body[a..b][i] == s[start + 8 + a..start + 8 + b][i] {
      assert body[a + i] == s[start + 8 + a + i];
    }
  }

  /** What has been fed to the hash, and the tag, seen from the magic number. */
  lemma Slices(s: Bytes, start: nat, pos: nat, fed: Bytes)
    requires start + 8 <= pos && pos + TAG_SIZE <= |s| && fed == s[start..pos]
    ensures var here := s[start..];
            here[..pos - start] == fed && here[pos - start..pos - start + TAG_SIZE] == s[pos..pos + TAG_SIZE]
  {
  }

  method ConstructClient(s: Bytes, start: nat, t: Byte, systemKey: Bytes, clientKey: Bytes, mac: Mac)
    returns (out: Outcome)
    requires start + 8 <= |s| && t == s[start + 7] && KnownType(t) && ClientType(t)
    ensures out == Skip(ParseHere(s[start..], systemKey, clientKey, mac), start)
    ensures out.Parsed? ==>
              && out.command.Client? && start + 8 <= out.consumed - 32 && out.consumed <= |s|
              && (out.valid <==> mac(clientKey, s[start..out.consumed - 32]) == s[out.consumed - 32..out.consumed])
  {
    var pos, fed := start + 8, s[start..start + 8];
    if |s| < pos + 8 { return Short; }
    var buff := s[pos..pos + 8];
    fed, pos := fed + buff, pos + 8;
    var rid := FromBigEndian(buff);
    if |s| < pos + 8 { return Short; }
    buff := s[pos..pos + 8];
    fed, pos := fed + buff, pos + 8;
    var sector := FromBigEndian(buff);
    var cmd := Read;
    if t == 2 {
      if |s| < pos + SECTOR_SIZE { return Short; }
      buff := s[pos..pos + SECTOR_SIZE];
      fed, pos := fed + buff, pos + SECTOR_SIZE;
      cmd := Write(buff);
    }
    if |s| < pos + TAG_SIZE { return Short; }
    var tag := s[pos..pos + TAG_SIZE];
    out := Parsed(Client(rid, sector, cmd), mac(clientKey, fed) == tag, pos + TAG_SIZE);
    Slices(s, start, pos, fed);
    Field(s, start, pos, 0, 8);
    Field(s, start, pos, 8, 16);
    Field(s, start, pos, 16, pos - start - 8);
  }

  method ConstructSystem(s: Bytes, start: nat, t: Byte, systemKey: Bytes, clientKey: Bytes, mac: Mac)
    returns (out: Outcome)
    requires start + 8 <= |s| && t == s[start + 7] && (t == 3 || t == 6)
    ensures out == Skip(ParseHere(s[start..], systemKey, clientKey, mac), start)
    ensures out.Parsed? ==>
              && out.command.System? && start + 8 <= out.consumed - 32 && out.consumed <= |s|
              && (out.valid <==> mac(systemKey, s[start..out.consumed - 32]) == s[out.consumed - 32..out.consumed])
  {
    var rank, pos, fed := s[start + 6], start + 8, s[start..start + 8];
    if |s| < pos + IDENT_SIZE { return Short; }
    var ident := s[pos..pos + IDENT_SIZE];
    fed, pos := fed + ident, pos + IDENT_SIZE;
    if |s| < pos + 8 { return Short; }
    var buff := s[pos..pos + 8];
    fed, pos := fed + buff, pos + 8;
    if |s| < pos + TAG_SIZE { return Short; }
    var tag := s[pos..pos + TAG_SIZE];
    var content := if t == 3 then ReadProcContent else AckContent;
    out := Parsed(System(rank, ident, FromBigEndian(buff), content), mac(systemKey, fed) == tag, pos + TAG_SIZE);
    Slices(s, start, pos, fed);
    Field(s, start, pos, 0, 16);
    Field(s, start, pos, 16, 24);
  }

  method ConstructAdvanced(s: Bytes, start: nat, t: Byte, systemKey: Bytes, clientKey: Bytes, mac: Mac)
    returns (out: Outcome)
    requires start + 8 <= |s| && t == s[start + 7] && (t == 4 || t == 5)
    ensures out == Skip(ParseHere(s[start..], systemKey, clientKey, mac), start)
    ensures out.Parsed? ==>
              && out.command.System? && start + 8 <= out.consumed - 32 && out.consumed <= |s|
              && (out.valid <==> mac(systemKey, s[start..out.consumed - 32]) == s[out.consumed - 32..out.consumed])
  {
    var rank, pos, fed := s[start + 6], start + 8, s[start..start + 8];
    if |s| < pos + IDENT_SIZE { return Short; }
    var ident := s[pos..pos + IDENT_SIZE];
    fed, pos := fed + ident, pos + IDENT_SIZE;
    if |s| < pos + 8 { return Short; }
    var sector := s[pos..pos + 8];
    fed, pos := fed + sector, pos + 8;
    if |s| < pos + 8 { return Short; }
    var ts := s[pos..pos + 8];
    fed, pos := fed + ts, pos + 8;
    if |s| < pos + 8 { return Short; }
    var padded := s[pos..pos + 8];
    fed, pos := fed + padded, pos + 8;
    if |s| < pos + SECTOR_SIZE { return Short; }
    var data := s[pos..pos + SECTOR_SIZE];
    fed, pos := fed + data, pos + SECTOR_SIZE;
    if |s| < pos + TAG_SIZE { return Short; }
    var tag := s[pos..pos + TAG_SIZE];
    var content := if t == 4 then ValueContent(FromBigEndian(ts), padded[7], data)
                   else WriteProcContent(FromBigEndian(ts), padded[7], data);
    out := Parsed(System(rank, ident, FromBigEndian(sector), content), mac(systemKey, fed) == tag, pos + TAG_SIZE);
    Slices(s, start, pos, fed);
    Field(s, start, pos, 0, 16);
    Field(s, start, pos, 16, 24);
    Field(s, start, pos, 24, 32);
    Field(s, start, pos, 40, 40 + SECTOR_SIZE);
  }

  /** Slide a window of four bytes to the first magic number; `|s|` when there is none. */
  method SeekMagic(s: Bytes) returns (start: nat)
    ensures start == FindMagic(s)
  {
    if |s| < 4 {
      return |s|;
    }
    var window := new Byte[4](i requires 0 <= i < 4 => s[i]);
    var pos := 4;
    while window[..] != Magic()
      invariant 4 <= pos <= |s|
      invariant window[0] == s[pos - 4] && window[1] == s[pos - 3] && window[2] == s[pos - 2] && window[3] == s[pos - 1]
      invariant forall j: nat :: j < pos - 4 ==> !MagicAt(s, j)
      decreases |s| - pos
    {
      assert window[..] == s[pos - 4..pos - 4 + 4];
      assert !MagicAt(s, pos - 4);
      window[0], window[1], window[2] := window[1], window[2], window[3];
      if |s| < pos + 1 {
        FindMagicIs(s, |s|);
        return |s|;
      }
      window[3] := s[pos];
      pos := pos + 1;
    }
    assert window[..] == s[pos - 4..pos - 4 + 4];
    start := pos - 4;
    FindMagicIs(s, start);
  }

  /** A message begins with the first magic number of the stream and ends, with its tag, at `end`. */
  ghost predicate Spans(s: Bytes, start: nat, end: nat) {
    MagicAt(s, start) && (forall j: nat :: j < start ==> !MagicAt(s, j)) && start + 40 <= end <= |s|
  }

  /** The last 32 bytes of the message are the tag, under `key`, of all bytes before them. */
  ghost predicate Signed(s: Bytes, start: nat, end: nat, key: Bytes, mac: Mac)
    requires start + 40 <= end <= |s|
  {
    mac(key, s[start..end - 32]) == s[end - 32..end]
  }

  /**
   * A message is valid exactly if its last 32 bytes are the tag of all bytes from the magic number on, under the
   * client key for a client command and the system key for a system command.
   */
  lemma ValidIff(s: Bytes, start: nat, systemKey: Bytes, clientKey: Bytes, mac: Mac)
    requires Deserialized(s, systemKey, clientKey, mac).Parsed?
    requires MagicAt(s, start) && forall j: nat :: j < start ==> !MagicAt(s, j)
    ensures var out := Deserialized(s, systemKey, clientKey, mac);
            && Spans(s, start, out.consumed)
            && (out.valid <==> Signed(s, start, out.consumed, if out.command.Client? then clientKey else systemKey, mac))
  {
    FindMagicIs(s, start);
    var out := Deserialized(s, systemKey, clientKey, mac);
    var end := out.consumed - 32;
    Slices(s, start, end, s[start..end]);
    hide FindMagic;
  }

  /** Seek the magic number, then read one message. */
  method DeserializeRc(s: Bytes, systemKey: Bytes, clientKey: Bytes, mac: Mac) returns (out: Outcome)
    ensures out == Deserialized(s, systemKey, clientKey, mac)
    ensures out.Parsed? ==> exists start: nat ::
              && Spans(s, start, out.consumed)
              && (out.valid <==> Signed(s, start, out.consumed, if out.command.Client? then clientKey else systemKey, mac))
  {
    var start := SeekMagic(s);
    if |s| < start + 8 {
      return Short;
    }
    var t := s[start + 7];
    if !KnownType(t) {
      out := BadType(start + 8);
    } else if t == 1 || t == 2 {
      out := ConstructClient(s, start, t, systemKey, clientKey, mac);
    } else if t == 3 || t == 6 {
      out := ConstructSystem(s, start, t, systemKey, clientKey, mac);
    } else {
      out := ConstructAdvanced(s, start, t, systemKey, clientKey, mac);
    }
    assert out == Deserialized(s, systemKey, clientKey, mac);
    if out.Parsed? {
      FirstMagic(s);
      ValidIff(s, start, systemKey, clientKey, mac);
      hide Signed;
      assert Spans(s, start, out.consumed);
    }
  }
}
