/** The digest of "abc", as FIPS 180-4 and RFC 3174 give it, followed round by round. */
module Sha1Example {
  import opened Bytes
  import opened Sha1

  // ---------- Following the rounds of a block ----------

  /** The working variables after `t` rounds, and the last sixteen words of the schedule used. */
  ghost predicate Reached(h: Words, block: seq<octet>, t: nat, v: Words, last: seq<word>)
    requires |block| == 64 && 16 <= t <= 80
  {
    && |last| == 16 && Rounds(h, ScheduleWords(block)[..t]) == v
    && Schedule(block, t - 16) == last[0] && Schedule(block, t - 15) == last[1]
    && Schedule(block, t - 14) == last[2] && Schedule(block, t - 13) == last[3]
    && Schedule(block, t - 12) == last[4] && Schedule(block, t - 11) == last[5]
    && Schedule(block, t - 10) == last[6] && Schedule(block, t - 9) == last[7]
    && Schedule(block, t - 8) == last[8] && Schedule(block, t - 7) == last[9]
    && Schedule(block, t - 6) == last[10] && Schedule(block, t - 5) == last[11]
    && Schedule(block, t - 4) == last[12] && Schedule(block, t - 3) == last[13]
    && Schedule(block, t - 2) == last[14] && Schedule(block, t - 1) == last[15]
  }

  /** One round as the code computes it: `w` is the word of the schedule, `a` the new first variable. */
  lemma Turn(h: Words, block: seq<octet>, t: nat, v: Words, w: word, a: word) returns (u: Words)
    requires |block| == 64 && t < 80 && Rounds(h, ScheduleWords(block)[..t]) == v
    requires if t < 16 then WordAt(block, t) == w
             else Rol32(Xor4(Schedule(block, t - 3), Schedule(block, t - 8),
                             Schedule(block, t - 14), Schedule(block, t - 16)), 1) == w
    requires Temp(Rol32(v.a, 5), RoundFunction(t, v.b, v.c, v.d), v.e, K(t), w) == a
    ensures u == Words(a, v.a, Rol32(v.b, 30), v.c, v.d)
    ensures Schedule(block, t) == w && Rounds(h, ScheduleWords(block)[..t + 1]) == u
  {
    hide RotL, Rol32, RoundFunction, K, Temp, WordAt, Xor4;
    var ws := ScheduleWords(block);
    assert ws[..t + 1][..t] == ws[..t];
    if t >= 16 {
      ScheduleAt(block, t);
    }
    CodeRoundIsRound(t, v, w);
    u := Words(a, v.a, Rol32(v.b, 30), v.c, v.d);
  }

  lemma Loaded(block: seq<octet>, t: nat)
    requires |block| == 64 && t < 16
    ensures Schedule(block, t) == WordAt(block, t)
  {
  }

  lemma NoRounds(h: Words, block: seq<octet>)
    requires |block| == 64
    ensures Rounds(h, ScheduleWords(block)[..0]) == h
  {
  }

  // ---------- The message ----------

  const MESSAGE: seq<octet> := [0x61, 0x62, 0x63]

  /** Three letters, the padding's one bit and zeros, and the length of 24 bits. */
  ghost predicate Padded(block: seq<octet>)
    requires |block| == 64
  {
    && WordAt(block, 0) == 0x61626380 && WordAt(block, 1) == 0 && WordAt(block, 2) == 0 && WordAt(block, 3) == 0
    && WordAt(block, 4) == 0 && WordAt(block, 5) == 0 && WordAt(block, 6) == 0 && WordAt(block, 7) == 0
    && WordAt(block, 8) == 0 && WordAt(block, 9) == 0 && WordAt(block, 10) == 0 && WordAt(block, 11) == 0
    && WordAt(block, 12) == 0 && WordAt(block, 13) == 0 && WordAt(block, 14) == 0 && WordAt(block, 15) == 24
  }

  lemma FirstRounds(h: Words, block: seq<octet>)
    requires h == Words(0x67452301, 0xEFCDAB89, 0x98BADCFE, 0x10325476, 0xC3D2E1F0)
    requires |block| == 64 && Padded(block)
    ensures Rounds(h, ScheduleWords(block)[..16])
         == Words(0x20BDD62F, 0x196BEE77, 0x644A3DA5, 0x1181ED99, 0x18C623F9)
  {
    hide Rounds, Schedule, ScheduleWords, WordAt, RotL, Round;
    var v := Words(0x67452301, 0xEFCDAB89, 0x98BADCFE, 0x10325476, 0xC3D2E1F0);
    NoRounds(h, block);
    v := Turn(h, block, 0, v, 0x61626380, 0x0116FC33);
    v := Turn(h, block, 1, v, 0x00000000, 0x8990536D);
    v := Turn(h, block, 2, v, 0x00000000, 0xA1390F08);
    v := Turn(h, block, 3, v, 0x00000000, 0xCDD8E11B);
    v := Turn(h, block, 4, v, 0x00000000, 0xCFD499DE);
    v := Turn(h, block, 5, v, 0x00000000, 0x3FC7CA40);
    v := Turn(h, block, 6, v, 0x00000000, 0x993E30C1);
    v := Turn(h, block, 7, v, 0x00000000, 0x9E8C07D4);
    v := Turn(h, block, 8, v, 0x00000000, 0x4B6AE328);
    v := Turn(h, block, 9, v, 0x00000000, 0x8351F929);
    v := Turn(h, block, 10, v, 0x00000000, 0xFBDA9E89);
    v := Turn(h, block, 11, v, 0x00000000, 0x63188FE4);
    v := Turn(h, block, 12, v, 0x00000000, 0x4607B664);
    v := Turn(h, block, 13, v, 0x00000000, 0x9128F695);
    v := Turn(h, block, 14, v, 0x00000000, 0x196BEE77);
    v := Turn(h, block, 15, v, 0x00000018, 0x20BDD62F);
  }

  lemma Rounds16(h: Words, block: seq<octet>)
    requires h == Words(0x67452301, 0xEFCDAB89, 0x98BADCFE, 0x10325476, 0xC3D2E1F0)
    requires |block| == 64 && Padded(block)
    ensures Reached(h, block, 16, Words(0x20BDD62F, 0x196BEE77, 0x644A3DA5, 0x1181ED99, 0x18C623F9),
                    [0x61626380, 0x00000000, 0x00000000, 0x00000000, 0x00000000, 0x00000000, 0x00000000, 0x00000000,
                     0x00000000, 0x00000000, 0x00000000, 0x00000000, 0x00000000, 0x00000000, 0x00000000, 0x00000018])
  {
    hide Rounds, Schedule, ScheduleWords, WordAt;
    FirstRounds(h, block);
    forall t: nat | t < 16
      ensures Schedule(block, t) == WordAt(block, t)
    {
      Loaded(block, t);
    }
  }

  lemma Rounds32(h: Words, block: seq<octet>)
    requires h == Words(0x67452301, 0xEFCDAB89, 0x98BADCFE, 0x10325476, 0xC3D2E1F0)
    requires |block| == 64
    requires Reached(h, block, 16, Words(0x20BDD62F, 0x196BEE77, 0x644A3DA5, 0x1181ED99, 0x18C623F9),
                     [0x61626380, 0x00000000, 0x00000000, 0x00000000, 0x00000000, 0x00000000, 0x00000000, 0x00000000,
                      0x00000000, 0x00000000, 0x00000000, 0x00000000, 0x00000000, 0x00000000, 0x00000000, 0x00000018])
    ensures Reached(h, block, 32, Words(0x3B845D33, 0x1267B407, 0x717EEBD7, 0xA0DC2D4B, 0xD2AA1365),
                    [0xC2C4C700, 0x00000000, 0x00000030, 0x85898E01, 0x00000000, 0x00000060, 0x0B131C03, 0x00000030,
                     0x85898EC1, 0x16263806, 0x00000000, 0x00000180, 0x2C4C700C, 0x000000F0, 0x93AFB507, 0x5898E048])
  {
    hide Rounds, Schedule, ScheduleWords, WordAt, RotL, Round;
    var v := Words(0x20BDD62F, 0x196BEE77, 0x644A3DA5, 0x1181ED99, 0x18C623F9);
    v := Turn(h, block, 16, v, 0xC2C4C700, 0x4E925823);
    v := Turn(h, block, 17, v, 0x00000000, 0x82AA6728);
    v := Turn(h, block, 18, v, 0x00000030, 0xDC64901D);
    v := Turn(h, block, 19, v, 0x85898E01, 0xFD9E1D7D);
    v := Turn(h, block, 20, v, 0x00000000, 0x1A37B0CA);
    v := Turn(h, block, 21, v, 0x00000060, 0x33A23BFC);
    v := Turn(h, block, 22, v, 0x0B131C03, 0x21283486);
    v := Turn(h, block, 23, v, 0x00000030, 0xD541F12D);
    v := Turn(h, block, 24, v, 0x85898EC1, 0xC7567DC6);
    v := Turn(h, block, 25, v, 0x16263806, 0x48413BA4);
    v := Turn(h, block, 26, v, 0x00000000, 0xBE35FBD5);
    v := Turn(h, block, 27, v, 0x00000180, 0x4AA84D97);
    v := Turn(h, block, 28, v, 0x2C4C700C, 0x8370B52E);
    v := Turn(h, block, 29, v, 0x000000F0, 0xC5FBAF5D);
    v := Turn(h, block, 30, v, 0x93AFB507, 0x1267B407);
    v := Turn(h, block, 31, v, 0x5898E048, 0x3B845D33);
  }

  lemma Rounds48(h: Words, block: seq<octet>)
    requires h == Words(0x67452301, 0xEFCDAB89, 0x98BADCFE, 0x10325476, 0xC3D2E1F0)
    requires |block| == 64
    requires Reached(h, block, 32, Words(0x3B845D33, 0x1267B407, 0x717EEBD7, 0xA0DC2D4B, 0xD2AA1365),
                     [0xC2C4C700, 0x00000000, 0x00000030, 0x85898E01, 0x00000000, 0x00000060, 0x0B131C03, 0x00000030,
                      0x85898EC1, 0x16263806, 0x00000000, 0x00000180, 0x2C4C700C, 0x000000F0, 0x93AFB507, 0x5898E048])
    ensures Reached(h, block, 48, Words(0xBEAD02CA, 0xA01B846C, 0x8714787C, 0x503CA382, 0xFB86C6AB),
                    [0x8E9A9202, 0x00000600, 0xB131C0F0, 0x16263BC6, 0x4EBED41E, 0x626380A1, 0x16263806, 0x000018C0,
                     0xD2E138C4, 0x00000F00, 0x3AFB5079, 0x898E04E5, 0xE2BA3C2B, 0x000060C0, 0x053A37CD, 0x74458547])
  {
    hide Rounds, Schedule, ScheduleWords, WordAt, RotL, Round;
    var v := Words(0x3B845D33, 0x1267B407, 0x717EEBD7, 0xA0DC2D4B, 0xD2AA1365);
    v := Turn(h, block, 32, v, 0x8E9A9202, 0x046FAA0A);
    v := Turn(h, block, 33, v, 0x00000600, 0x2C0EBC11);
    v := Turn(h, block, 34, v, 0xB131C0F0, 0x21796AD4);
    v := Turn(h, block, 35, v, 0x16263BC6, 0xDCBBB0CB);
    v := Turn(h, block, 36, v, 0x4EBED41E, 0x0F511FD8);
    v := Turn(h, block, 37, v, 0x626380A1, 0xDC63973F);
    v := Turn(h, block, 38, v, 0x16263806, 0x4C986405);
    v := Turn(h, block, 39, v, 0x000018C0, 0x32DE1CBA);
    v := Turn(h, block, 40, v, 0xD2E138C4, 0xFC87DEDF);
    v := Turn(h, block, 41, v, 0x00000F00, 0x970A0D5C);
    v := Turn(h, block, 42, v, 0x3AFB5079, 0x7F193DC5);
    v := Turn(h, block, 43, v, 0x898E04E5, 0xEE1B1AAF);
    v := Turn(h, block, 44, v, 0xE2BA3C2B, 0x40F28E09);
    v := Turn(h, block, 45, v, 0x000060C0, 0x1C51E1F2);
    v := Turn(h, block, 46, v, 0x053A37CD, 0xA01B846C);
    v := Turn(h, block, 47, v, 0x74458547, 0xBEAD02CA);
  }

  lemma Rounds64(h: Words, block: seq<octet>)
    requires h == Words(0x67452301, 0xEFCDAB89, 0x98BADCFE, 0x10325476, 0xC3D2E1F0)
    requires |block| == 64
    requires Reached(h, block, 48, Words(0xBEAD02CA, 0xA01B846C, 0x8714787C, 0x503CA382, 0xFB86C6AB),
                     [0x8E9A9202, 0x00000600, 0xB131C0F0, 0x16263BC6, 0x4EBED41E, 0x626380A1, 0x16263806, 0x000018C0,
                      0xD2E138C4, 0x00000F00, 0x3AFB5079, 0x898E04E5, 0xE2BA3C2B, 0x000060C0, 0x053A37CD, 0x74458547])
    ensures Reached(h, block, 64, Words(0x6B61C9E1, 0xB66C020B, 0x9523272C, 0xF5D5B051, 0x8FD4B796),
                    [0xDA9415ED, 0x26380A16, 0x626383A1, 0x4EBF54DE, 0x3835B44B, 0x0000F600, 0x1E84C7A3, 0x98E04D98,
                     0x651D16A0, 0x62658CA1, 0x458544D6, 0x44584CB7, 0x7BA06619, 0x6380AEA2, 0x0AE55269, 0x627B49A1])
  {
    hide Rounds, Schedule, ScheduleWords, WordAt, RotL, Round;
    var v := Words(0xBEAD02CA, 0xA01B846C, 0x8714787C, 0x503CA382, 0xFB86C6AB);
    v := Turn(h, block, 48, v, 0xDA9415ED, 0xBAF39337);
    v := Turn(h, block, 49, v, 0x26380A16, 0x120731C5);
    v := Turn(h, block, 50, v, 0x626383A1, 0x641DB2CE);
    v := Turn(h, block, 51, v, 0x4EBF54DE, 0x3847AD66);
    v := Turn(h, block, 52, v, 0x3835B44B, 0xE490436D);
    v := Turn(h, block, 53, v, 0x0000F600, 0x27E9F1D8);
    v := Turn(h, block, 54, v, 0x1E84C7A3, 0x7B71F76D);
    v := Turn(h, block, 55, v, 0x98E04D98, 0x5E6456AF);
    v := Turn(h, block, 56, v, 0x651D16A0, 0xC846093F);
    v := Turn(h, block, 57, v, 0x62658CA1, 0xD262FF50);
    v := Turn(h, block, 58, v, 0x458544D6, 0x09D785FD);
    v := Turn(h, block, 59, v, 0x44584CB7, 0x3F52DE5A);
    v := Turn(h, block, 60, v, 0x7BA06619, 0xD756C147);
    v := Turn(h, block, 61, v, 0x6380AEA2, 0x548C9CB2);
    v := Turn(h, block, 62, v, 0x0AE55269, 0xB66C020B);
    v := Turn(h, block, 63, v, 0x627B49A1, 0x6B61C9E1);
  }

  lemma Rounds80(h: Words, block: seq<octet>)
    requires h == Words(0x67452301, 0xEFCDAB89, 0x98BADCFE, 0x10325476, 0xC3D2E1F0)
    requires |block| == 64
    requires Reached(h, block, 64, Words(0x6B61C9E1, 0xB66C020B, 0x9523272C, 0xF5D5B051, 0x8FD4B796),
                     [0xDA9415ED, 0x26380A16, 0x626383A1, 0x4EBF54DE, 0x3835B44B, 0x0000F600, 0x1E84C7A3, 0x98E04D98,
                      0x651D16A0, 0x62658CA1, 0x458544D6, 0x44584CB7, 0x7BA06619, 0x6380AEA2, 0x0AE55269, 0x627B49A1])
    ensures Reached(h, block, 80, Words(0x42541B35, 0x5738D5E1, 0x21834873, 0x681E6DF6, 0xD8FDF6AD),
                    [0x7CD45C9D, 0x000F0000, 0xFB50753A, 0xEC6765E8, 0xBA3C2BE2, 0x0060C000, 0x3A37CD05, 0x458546F4,
                     0xB8599DD6, 0x380A1A26, 0x01E02203, 0xE7CC3456, 0xE6E60B69, 0x00F60A00, 0x5795EF4F, 0x822E0879])
  {
    hide Rounds, Schedule, ScheduleWords, WordAt, RotL, Round;
    var v := Words(0x6B61C9E1, 0xB66C020B, 0x9523272C, 0xF5D5B051, 0x8FD4B796);
    v := Turn(h, block, 64, v, 0x7CD45C9D, 0x19DFA7AC);
    v := Turn(h, block, 65, v, 0x000F0000, 0x101655F9);
    v := Turn(h, block, 66, v, 0xFB50753A, 0x0C3DF2B4);
    v := Turn(h, block, 67, v, 0xEC6765E8, 0x78DD4D2B);
    v := Turn(h, block, 68, v, 0xBA3C2BE2, 0x497093C0);
    v := Turn(h, block, 69, v, 0x0060C000, 0x3F2588C2);
    v := Turn(h, block, 70, v, 0x3A37CD05, 0xC199F8C7);
    v := Turn(h, block, 71, v, 0x458546F4, 0x39859DE7);
    v := Turn(h, block, 72, v, 0xB8599DD6, 0xEDB42DE4);
    v := Turn(h, block, 73, v, 0x380A1A26, 0x11793F6F);
    v := Turn(h, block, 74, v, 0x01E02203, 0x5EE76897);
    v := Turn(h, block, 75, v, 0xE7CC3456, 0x63F7DAB7);
    v := Turn(h, block, 76, v, 0xE6E60B69, 0xA079B7D9);
    v := Turn(h, block, 77, v, 0x00F60A00, 0x860D21CC);
    v := Turn(h, block, 78, v, 0x5795EF4F, 0x5738D5E1);
    v := Turn(h, block, 79, v, 0x822E0879, 0x42541B35);
  }

  lemma CompressedFrom(h: Words, block: seq<octet>, v: Words)
    requires |block| == 64 && Rounds(h, ScheduleWords(block)[..80]) == v
    ensures Compress(h, block)
         == Words(Plus(h.a, v.a), Plus(h.b, v.b), Plus(h.c, v.c), Plus(h.d, v.d), Plus(h.e, v.e))
  {
    hide Plus, Rounds;
    assert ScheduleWords(block)[..80] == ScheduleWords(block);
  }

  lemma Compressed(block: seq<octet>)
    requires |block| == 64 && Padded(block)
    ensures Compress(INITIAL, block)
         == Words(0xA9993E36, 0x4706816A, 0xBA3E2571, 0x7850C26C, 0x9CD0D89D)
  {
    hide Padded, Compress, Rounds, Schedule, ScheduleWords;
    Rounds16(INITIAL, block);
    Rounds32(INITIAL, block);
    Rounds48(INITIAL, block);
    Rounds64(INITIAL, block);
    Rounds80(INITIAL, block);
    CompressedFrom(INITIAL, block, Words(0x42541B35, 0x5738D5E1, 0x21834873, 0x681E6DF6, 0xD8FDF6AD));
  }

  lemma PaddedMessage()
    ensures |Pad(MESSAGE)| == 64 && Padded(Pad(MESSAGE))
  {
    hide BigEndianWord, Octet;
    var p := Pad(MESSAGE);
    LengthOctets();
    assert p == MESSAGE + [0x80] + Zeros(52) + LengthField(24);
    assert forall i :: 4 <= i < 63 ==> p[i] == 0;
    assert p[0] == 0x61 && p[1] == 0x62 && p[2] == 0x63 && p[3] == 0x80 && p[63] == 24;
    FewWords();
  }

  lemma FewWords()
    ensures BigEndianWord(0x61, 0x62, 0x63, 0x80) == 0x61626380
    ensures BigEndianWord(0, 0, 0, 0) == 0 && BigEndianWord(0, 0, 0, 24) == 24
  {
  }

  lemma LengthOctets()
    ensures LengthField(24)[7] == 24 && forall i :: 0 <= i < 7 ==> LengthField(24)[i] == 0
  {
    ByteAtStep(24, 0);
    forall up | 1 <= up < 8
      ensures ByteAt(24, up) == 0
    {
      SmallByte(24, up);
    }
    OctetsOf24();
  }

  lemma SmallByte(n: nat, up: nat)
    requires n < 256 && up >= 1
    ensures ByteAt(n, up) == 0
    decreases up
  {
    ByteAtStep(n, up);
    if up > 1 {
      SmallByte(n / 256, up - 1);
    } else {
      ByteAtStep(n / 256, 0);
    }
  }

  lemma OctetsOf24()
    ensures Octet(24) == 24 && Octet(0) == 0
  {
  }

  /** The digest of "abc" is a9993e36 4706816a ba3e2571 7850c26c 9cd0d89d. */
  lemma DigestOfAbc()
    ensures Digest(MESSAGE)
         == [0xa9, 0x99, 0x3e, 0x36, 0x47, 0x06, 0x81, 0x6a, 0xba, 0x3e,
             0x25, 0x71, 0x78, 0x50, 0xc2, 0x6c, 0x9c, 0xd0, 0xd8, 0x9d]
  {
    hide Compress, Pad, Padded, Octets;
    var p := Pad(MESSAGE);
    PaddedMessage();
    Compressed(p);
    assert p[..0] == [] && p[0..] == p && HashBlocks([]) == INITIAL;
    assert HashBlocks(p) == Compress(HashBlocks(p[..|p| - 64]), p[|p| - 64..]);
    FinalOctets();
  }

  lemma FinalOctets()
    ensures Octets(0xA9993E36) == [0xa9, 0x99, 0x3e, 0x36]
    ensures Octets(0x4706816A) == [0x47, 0x06, 0x81, 0x6a]
    ensures Octets(0xBA3E2571) == [0xba, 0x3e, 0x25, 0x71]
    ensures Octets(0x7850C26C) == [0x78, 0x50, 0xc2, 0x6c]
    ensures Octets(0x9CD0D89D) == [0x9c, 0xd0, 0xd8, 0x9d]
  {
  }
}
