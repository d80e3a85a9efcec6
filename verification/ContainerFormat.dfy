/** The container byte by byte, on any bytes whatever. */
module ContainerFormat {
  import opened Words
  import opened Statuses
  import opened Containers

  /** A 32-bit word, the lowest byte first. */
  function Word(s: seq<Byte>, i: nat): int
    requires i + 4 <= |s|
  {
    (s[i] as int) + 0x100 * (s[i + 1] as int) + 0x1_0000 * (s[i + 2] as int) + 0x100_0000 * (s[i + 3] as int)
  }

  lemma WordIs(s: seq<Byte>, i: nat)
    requires i + 4 <= |s|
    ensures ReadU32(s, i) == Word(s, i)
  {
    var w := s[i..i + 4];
    assert w[0] == s[i] && w[1] == s[i + 1] && w[2] == s[i + 2] && w[3] == s[i + 3];
  }

  /** What a reader makes of any sixteen bytes and what follows them. */
  lemma RecordVerdict(d: seq<Byte>)
    ensures |d| < 16 ==> ParseRecord(d) == Failure(Again)
    ensures |d| >= 16 && Word(d, 4) == 0xFFFF_FFFF ==>
              ParseRecord(d) == if Word(d, 0) == 0 then Success(Record(-1, Word(d, 8), [])) else Failure(Format)
    ensures |d| >= 16 && Word(d, 4) != 0xFFFF_FFFF && !(1 <= Word(d, 0) <= 67108864) ==> ParseRecord(d) == Failure(Format)
    ensures |d| >= 16 && Word(d, 4) != 0xFFFF_FFFF && 1 <= Word(d, 0) <= 67108864 && |d| < 16 + Word(d, 0) ==>
              ParseRecord(d) == Failure(Again)
    ensures |d| >= 16 && Word(d, 4) != 0xFFFF_FFFF && 1 <= Word(d, 0) <= 67108864 && |d| >= 16 + Word(d, 0) ==>
              && ParseRecord(d).Success?
              && var r := ParseRecord(d).value;
                 && -0x8000_0000 <= r.qIndex < 0x8000_0000 && (r.qIndex - Word(d, 4)) % 0x1_0000_0000 == 0
                 && r.flags == Word(d, 8) && r.payload == d[16..16 + Word(d, 0)]
  {
    if |d| >= 16 {
      WordIs(d, 0);
      WordIs(d, 4);
      WordIs(d, 8);
    }
  }

  /** And of any sixty-four: the magic, and a picture with an extent. */
  lemma HeaderVerdict(d: seq<Byte>)
    ensures |d| < 64 ==> ParseHeader(d) == Failure(Again)
    ensures |d| >= 64 ==>
              if d[..6] == [0x4D, 0x4C, 0x56, 0x43, 0x31, 0x02] && Word(d, 8) != 0 && Word(d, 12) != 0
              then ParseHeader(d) == Success(Header(Word(d, 8), Word(d, 12), Word(d, 16), Word(d, 20), Word(d, 24), Word(d, 28),
                                                    Word(d, 32), Word(d, 36), Word(d, 40), Word(d, 44), Word(d, 48)))
              else ParseHeader(d) == Failure(Format)
  {
    if |d| >= 64 {
      WordIs(d, 8);
      WordIs(d, 12);
      WordIs(d, 16);
      WordIs(d, 20);
      WordIs(d, 24);
      WordIs(d, 28);
      WordIs(d, 32);
      WordIs(d, 36);
      WordIs(d, 40);
      WordIs(d, 44);
      WordIs(d, 48);
    }
  }

  /** A header in full: 1920 by 1080 at level 22, 30 frames a second for want of a rate, the frame count left out. */
  lemma HeaderExample(h: Header)
    requires h == Header(1920, 1080, 0, 0, 22, 7, 60, 10, 30, 3, 1000000)
    ensures HeaderBytes(h)[..28] == [0x4D, 0x4C, 0x56, 0x43, 0x31, 0x02, 0, 0, 0x80, 0x07, 0, 0, 0x38, 0x04, 0, 0,
                                     30, 0, 0, 0, 1, 0, 0, 0, 22, 0, 0, 0]
    ensures HeaderBytes(h)[28..] == [0, 0, 0, 0, 60, 0, 0, 0, 10, 0, 0, 0, 30, 0, 0, 0, 3, 0, 0, 0,
                                     0x40, 0x42, 0x0F, 0, 0, 0, 0, 0, 0, 0, 0, 0, 0, 0, 0, 0]
  {
    HeadExample(h);
    TailExample(h);
    Halves(HeaderHead(h), HeaderTail(h));
  }

  lemma Halves(a: seq<Byte>, b: seq<Byte>)
    ensures (a + b)[..|a|] == a && (a + b)[|a|..] == b
  {
  }

  lemma HeadExample(h: Header)
    requires h == Header(1920, 1080, 0, 0, 22, 7, 60, 10, 30, 3, 1000000)
    ensures HeaderHead(h) == [0x4D, 0x4C, 0x56, 0x43, 0x31, 0x02, 0, 0, 0x80, 0x07, 0, 0, 0x38, 0x04, 0, 0,
                              30, 0, 0, 0, 1, 0, 0, 0, 22, 0, 0, 0]
  {
    assert Le4(1920) == [0x80, 0x07, 0, 0] && Le4(1080) == [0x38, 0x04, 0, 0];
    assert Le4(30) == [30, 0, 0, 0] && Le4(1) == [1, 0, 0, 0] && Le4(22) == [22, 0, 0, 0];
  }

  lemma TailExample(h: Header)
    requires h == Header(1920, 1080, 0, 0, 22, 7, 60, 10, 30, 3, 1000000)
    ensures HeaderTail(h) == [0, 0, 0, 0, 60, 0, 0, 0, 10, 0, 0, 0, 30, 0, 0, 0, 3, 0, 0, 0,
                              0x40, 0x42, 0x0F, 0, 0, 0, 0, 0, 0, 0, 0, 0, 0, 0, 0, 0]
  {
    assert Le4(60) == [60, 0, 0, 0] && Le4(10) == [10, 0, 0, 0] && Le4(30) == [30, 0, 0, 0] && Le4(3) == [3, 0, 0, 0];
    assert Le4(1000000) == [0x40, 0x42, 0x0F, 0];
  }

  /** A record in full, and a dropped one. */
  lemma RecordExample()
    ensures RecordBytes(Record(22, 5, [7, 8])) == [2, 0, 0, 0, 22, 0, 0, 0, 5, 0, 0, 0, 0, 0, 0, 0, 7, 8]
    ensures RecordBytes(Record(-1, 0, [])) == [0, 0, 0, 0, 255, 255, 255, 255, 0, 0, 0, 0, 0, 0, 0, 0]
  {
  }

  /** After a format error nothing is taken in and nothing but the error comes out. */
  lemma ErrorIsFinal(d: Demux, data: seq<Byte>)
    ensures Take(d).1 == Failure(Format) ==> Take(d).0.failed
    ensures d.failed ==> Appended(d, data) == d && Take(d) == (d, Failure(Format)) && Drain(d) == (d, [])
  {
    TakeStatus(d);
  }
}
