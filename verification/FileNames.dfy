/** The names under which sectors are stored: `idx_ts_wr`, with `tmp_` in front until the file is complete. */
module FileNames {
  import opened Domain

  const U64 := 0x1_0000_0000_0000_0000
  const U8 := 0x100

  predicate IsDigit(c: char) {
    '0' <= c <= '9'
  }

  function Digit(d: nat): (c: char)
    requires d < 10
    ensures IsDigit(c)
  {
    '0' + d as char
  }

  /** Decimal notation without leading zeros. */
  function Decimal(n: nat): (s: string)
    ensures s != "" && forall i :: 0 <= i < |s| ==> IsDigit(s[i])
  {
    if n < 10 then [Digit(n)] else Decimal(n / 10) + [Digit(n % 10)]
  }

  /** The number a string of digits denotes. */
  function Value(s: string): nat
    requires forall i :: 0 <= i < |s| ==> IsDigit(s[i])
  {
    if s == "" then 0
    else
      assert IsDigit(s[|s| - 1]);
      Value(s[..|s| - 1]) * 10 + (s[|s| - 1] - '0') as nat
  }

  /** Parsing an unsigned number below `limit`, with an optional plus sign. */
  function Parse(s: string, limit: nat): Option<nat> {
    var t := if s != "" && s[0] == '+' then s[1..] else s;
    if t == "" || exists i :: 0 <= i < |t| && !IsDigit(t[i]) then None
    else if Value(t) < limit then Some(Value(t)) else None
  }

  /** The parts between underscores. */
  function Split(s: string): (parts: seq<string>)
    ensures parts != []
  {
    if s == "" then [""]
    else
      var rest := Split(s[1..]);
      if s[0] == '_' then [""] + rest else [[s[0]] + rest[0]] + rest[1..]
  }

  function FinalName(idx: nat, tag: Tag): string {
    Decimal(idx) + "_" + Decimal(tag.ts) + "_" + Decimal(tag.wr)
  }

  function TmpName(idx: nat, tag: Tag): string {
    "tmp_" + FinalName(idx, tag)
  }

  /** How recovery reads a name: not three parts, three parts that parse, or three parts that do not. */
  datatype Kind = Other | Final(idx: nat, tag: Tag) | Broken

  function KindOf(name: string): Kind {
    var parts := Split(name);
    if |parts| != 3 then Other
    else
      var idx, ts, wr := Parse(parts[0], U64), Parse(parts[1], U64), Parse(parts[2], U8);
      if idx.Some? && ts.Some? && wr.Some? then Final(idx.value, Tag(ts.value, wr.value)) else Broken
  }

  /** The index and the tag fit their machine types. */
  predicate InRange(idx: nat, tag: Tag) {
    idx < U64 && tag.ts < U64 && tag.wr < U8
  }

  // ---------- Round trips ----------

  lemma {:induction false} ValueOfDecimal(n: nat)
    ensures Value(Decimal(n)) == n
  {
    if n >= 10 {
      ValueOfDecimal(n / 10);
      assert Decimal(n)[..|Decimal(n)| - 1] == Decimal(n / 10);
    } else {
      assert Decimal(n)[..0] == "";
    }
  }

  lemma ParseDecimal(n: nat, limit: nat)
    requires n < limit
    ensures Parse(Decimal(n), limit) == Some(n)
  {
    ValueOfDecimal(n);
  }

  lemma {:induction false} SplitWhole(a: string)
    requires '_' !in a
    ensures Split(a) == [a]
  {
    if a != "" {
      assert a[0] in a;
      SplitWhole(a[1..]);
      assert [a[0]] + a[1..] == a;
    }
  }

  lemma {:induction false} SplitFirst(a: string, b: string)
    requires '_' !in a
    ensures Split(a + "_" + b) == [a] + Split(b)
  {
    var s := a + "_" + b;
    if a == "" {
      assert s[1..] == b;
    } else {
      assert a[0] in a;
      SplitFirst(a[1..], b);
      assert s[1..] == a[1..] + "_" + b;
      assert [a[0]] + a[1..] == a;
    }
  }

  lemma FinalNameParts(idx: nat, tag: Tag)
    ensures Split(FinalName(idx, tag)) == [Decimal(idx), Decimal(tag.ts), Decimal(tag.wr)]
  {
    var rest := Decimal(tag.ts) + "_" + Decimal(tag.wr);
    assert FinalName(idx, tag) == Decimal(idx) + "_" + rest;
    SplitFirst(Decimal(idx), rest);
    SplitFirst(Decimal(tag.ts), Decimal(tag.wr));
    SplitWhole(Decimal(tag.wr));
  }

  lemma ParseTooLarge(n: nat, limit: nat)
    requires n >= limit
    ensures Parse(Decimal(n), limit) == None
  {
    ValueOfDecimal(n);
  }

  /** The names as they appear in a directory. */
  lemma NameExample()
    ensures FinalName(98, Tag(76, 54)) == "98_76_54" && TmpName(3, Tag(2, 10)) == "tmp_3_2_10"
  {
    assert Decimal(98) == "98" && Decimal(76) == "76" && Decimal(54) == "54" && Decimal(10) == "10";
  }

  /** A name whose numbers fit 64, 64 and 8 bits is read back; any other ends recovery. */
  lemma FinalNameRead(idx: nat, tag: Tag)
    ensures KindOf(FinalName(idx, tag)) ==
            if idx < 0x1_0000_0000_0000_0000 && tag.ts < 0x1_0000_0000_0000_0000 && tag.wr < 256
            then Final(idx, tag) else Broken
  {
    FinalNameParts(idx, tag);
    if idx < U64 { ParseDecimal(idx, U64); } else { ParseTooLarge(idx, U64); }
    if tag.ts < U64 { ParseDecimal(tag.ts, U64); } else { ParseTooLarge(tag.ts, U64); }
    if tag.wr < U8 { ParseDecimal(tag.wr, U8); } else { ParseTooLarge(tag.wr, U8); }
  }

  /** Reading a final name gives back the sector, the timestamp and the rank it was made from. */
  lemma FinalNameRoundTrip(idx: nat, tag: Tag)
    requires InRange(idx, tag)
    ensures KindOf(FinalName(idx, tag)) == Final(idx, tag)
  {
    FinalNameRead(idx, tag);
  }

  lemma ParsePlus(n: nat, limit: nat)
    requires n < limit
    ensures Parse("+" + Decimal(n), limit) == Some(n)
  {
    var s := "+" + Decimal(n);
    assert s[1..] == Decimal(n);
    ValueOfDecimal(n);
  }

  /** Parsing accepts a plus sign, so a name that the store does not write can be read as one that it does. */
  lemma PlusIsRead(idx: nat, tag: Tag)
    requires InRange(idx, tag)
    ensures KindOf("+" + FinalName(idx, tag)) == Final(idx, tag)
  {
    hide Split;
    hide Parse;
    hide Decimal;
    hide FinalName;
    PlusParts(idx, tag);
    ParsePlus(idx, U64);
    ParseDecimal(tag.ts, U64);
    ParseDecimal(tag.wr, U8);
  }

  lemma PlusParts(idx: nat, tag: Tag)
    ensures Split("+" + FinalName(idx, tag)) == ["+" + Decimal(idx), Decimal(tag.ts), Decimal(tag.wr)]
  {
    hide Split;
    hide Decimal;
    var rest := Decimal(tag.ts) + "_" + Decimal(tag.wr);
    SplitFirst("+" + Decimal(idx), rest);
    assert "+" + FinalName(idx, tag) == ("+" + Decimal(idx)) + "_" + rest;
    SplitFirst(Decimal(tag.ts), Decimal(tag.wr));
    SplitWhole(Decimal(tag.wr));
  }

  /** Different versions of different sectors never share a file. */
  lemma FinalNamesDistinct(i: nat, t: Tag, j: nat, u: Tag)
    requires FinalName(i, t) == FinalName(j, u)
    ensures i == j && t == u
  {
    FinalNameParts(i, t);
    FinalNameParts(j, u);
    ValueOfDecimal(i);
    ValueOfDecimal(j);
    ValueOfDecimal(t.ts);
    ValueOfDecimal(u.ts);
    ValueOfDecimal(t.wr);
    ValueOfDecimal(u.wr);
  }

  /** A temporary file is never taken for a sector. */
  lemma TmpNameIsOther(idx: nat, tag: Tag)
    ensures KindOf(TmpName(idx, tag)) == Other
  {
    FinalNameParts(idx, tag);
    SplitFirst("tmp", FinalName(idx, tag));
    assert TmpName(idx, tag) == "tmp" + "_" + FinalName(idx, tag);
  }
}
