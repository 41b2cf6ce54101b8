// The numbers and bytes of the handshake, spelt out.
module RfbBytes {
  import opened Common
  import opened Ard
  import opened Rfb

  type Bit = b: nat | b < 2

  // The byte with these bits, the most significant first.
  function FromBits(b7: Bit, b6: Bit, b5: Bit, b4: Bit, b3: Bit, b2: Bit, b1: Bit, b0: Bit): Byte {
    128 * b7 + 64 * b6 + 32 * b5 + 16 * b4 + 8 * b3 + 4 * b2 + 2 * b1 + b0
  }

  /****** The DES key ******/

  lemma Halved(x: nat, b: Bit)
    ensures (2 * x + b) / 2 == x && (2 * x + b) % 2 == b
  {}

  // Dividing by two again and again.
  lemma Quotients(b: nat)
    ensures b / 4 == b / 2 / 2 && b / 8 == b / 4 / 2 && b / 16 == b / 8 / 2 && b / 32 == b / 16 / 2
    ensures b / 64 == b / 32 / 2 && b / 128 == b / 64 / 2
  {}

  lemma BitsOf(b: nat, x6: nat, x5: nat, x4: nat, x3: nat, x2: nat, x1: nat,
               b7: Bit, b6: Bit, b5: Bit, b4: Bit, b3: Bit, b2: Bit, b1: Bit, b0: Bit)
    requires b == 2 * x6 + b0 && x6 == 2 * x5 + b1 && x5 == 2 * x4 + b2 && x4 == 2 * x3 + b3
    requires x3 == 2 * x2 + b4 && x2 == 2 * x1 + b5 && x1 == 2 * b7 + b6
    ensures b % 2 == b0 && b / 2 % 2 == b1 && b / 4 % 2 == b2 && b / 8 % 2 == b3
    ensures b / 16 % 2 == b4 && b / 32 % 2 == b5 && b / 64 % 2 == b6 && b / 128 == b7
  {
    Quotients(b);
    Halved(x6, b0);
    Halved(x5, b1);
    Halved(x4, b2);
    Halved(x3, b3);
    Halved(x2, b4);
    Halved(x1, b5);
    Halved(b7, b6);
  }

  // The last bit first.
  lemma BitsReversed(b7: Bit, b6: Bit, b5: Bit, b4: Bit, b3: Bit, b2: Bit, b1: Bit, b0: Bit)
    ensures Reverse8(FromBits(b7, b6, b5, b4, b3, b2, b1, b0)) == FromBits(b0, b1, b2, b3, b4, b5, b6, b7)
  {
    var x1: nat := 2 * b7 + b6;
    var x2 := 2 * x1 + b5;
    var x3 := 2 * x2 + b4;
    var x4 := 2 * x3 + b3;
    var x5 := 2 * x4 + b2;
    var x6 := 2 * x5 + b1;
    var b := 2 * x6 + b0;
    assert b == FromBits(b7, b6, b5, b4, b3, b2, b1, b0);
    BitsOf(b, x6, x5, x4, x3, x2, x1, b7, b6, b5, b4, b3, b2, b1, b0);
  }

  // The first eight bytes of the password make the key, each from its last bit to
  // its first; a shorter password is filled up with zeros.
  lemma KeyBits(password: Bytes, i: nat, b7: Bit, b6: Bit, b5: Bit, b4: Bit, b3: Bit, b2: Bit, b1: Bit, b0: Bit)
    requires i < 8
    ensures |DesKey(password)| == 8
    ensures i < |password| && password[i] == FromBits(b7, b6, b5, b4, b3, b2, b1, b0)
            ==> DesKey(password)[i] == FromBits(b0, b1, b2, b3, b4, b5, b6, b7)
    ensures i >= |password| ==> DesKey(password)[i] == 0
  {
    hide Reverse8, FromBits;
    if i < |password| {
      BitsReversed(b7, b6, b5, b4, b3, b2, b1, b0);
    } else {
      ZeroReversed();
    }
  }

  lemma ZeroReversed()
    ensures Reverse8(0) == 0
  {}

  // A server that knows the password undoes each half of the answer and finds its
  // challenge.
  lemma ServerFindsChallenge(challenge: Bytes, login: Login, undo: (Bytes, Bytes) -> Bytes)
    requires |challenge| == 16
    requires forall k, x :: |x| == 8 ==> |login.des(k, x)| == 8 && undo(k, login.des(k, x)) == x
    ensures var answer, key := ChallengeReply(challenge, login), DesKey(login.password);
            && |answer| == 16 && undo(key, answer[..8]) == challenge[..8] && undo(key, answer[8..]) == challenge[8..]
            && undo(key, answer[..8]) + undo(key, answer[8..]) == challenge
  {
    var key := DesKey(login.password);
    var first, second := login.des(key, challenge[..8]), login.des(key, challenge[8..]);
    assert ChallengeReply(challenge, login)[..8] == first && ChallengeReply(challenge, login)[8..] == second;
  }

  /****** Versions ******/

  function Digits(n: nat): Bytes {
    [48 + n / 100 % 10, 48 + n / 10 % 10, 48 + n % 10]
  }

  // "RFB " major "." minor, three digits each, and a newline.
  function Greeting(major: nat, minor: nat): Bytes {
    [82, 70, 66, 32] + Digits(major) + [46] + Digits(minor) + [10]
  }

  lemma Spelt(s: string, b: Bytes)
    requires |s| == |b| && forall i :: 0 <= i < |s| ==> s[i] as int == b[i]
    ensures Ascii(s) == b
  {}

  lemma SpeltGreetings()
    ensures Ascii("RFB 003.003\n") == Greeting(3, 3) && Ascii("RFB 003.006\n") == Greeting(3, 6)
    ensures Ascii("RFB 003.007\n") == Greeting(3, 7) && Ascii("RFB 003.008\n") == Greeting(3, 8)
  {
    Spelt("RFB 003.003\n", Greeting(3, 3));
    Spelt("RFB 003.006\n", Greeting(3, 6));
    Spelt("RFB 003.007\n", Greeting(3, 7));
    Spelt("RFB 003.008\n", Greeting(3, 8));
  }

  lemma SpeltVendors()
    ensures Ascii("RFB 003.889\n") == Greeting(3, 889) && Ascii("RFB 004.000\n") == Greeting(4, 0)
    ensures Ascii("RFB 004.001\n") == Greeting(4, 1) && Ascii("RFB 005.000\n") == Greeting(5, 0)
  {
    Spelt("RFB 003.889\n", Greeting(3, 889));
    Spelt("RFB 004.000\n", Greeting(4, 0));
    Spelt("RFB 004.001\n", Greeting(4, 1));
    Spelt("RFB 005.000\n", Greeting(5, 0));
  }

  // Greetings of 3.3 and 3.6 get 3.3, those of 3.7 get 3.7, those of 3.8 and of the
  // known vendors get 3.8, and no other is answered.
  lemma VersionsAgreed(greeting: Bytes)
    ensures var known := Minor(greeting);
            && (known.None? <==> greeting !in {Greeting(3, 3), Greeting(3, 6), Greeting(3, 7), Greeting(3, 8),
                                               Greeting(3, 889), Greeting(4, 0), Greeting(4, 1), Greeting(5, 0)})
            && (known.Some? ==> VersionReply(known.value)
                                == if greeting == Greeting(3, 3) || greeting == Greeting(3, 6) then Greeting(3, 3)
                                   else if greeting == Greeting(3, 7) then Greeting(3, 7)
                                   else Greeting(3, 8))
  {
    SpeltGreetings();
    SpeltVendors();
    assert Greeting(3, 3)[10] == 51 && Greeting(3, 6)[10] == 54 && Greeting(3, 7)[10] == 55 && Greeting(3, 8)[10] == 56;
  }

  // The security types by number.
  lemma SecurityNumbers(methods: Bytes, username: Bytes, password: Bytes)
    ensures Choice(methods, username, password)
         == if username != [] then if 30 in methods then 30 else 0
            else if 2 in methods then 2
            else if 1 in methods && password == [] then 1
            else 0
  {}

  // Where each type leads: none to the result with 3.8 and to the end before, the
  // password to the challenge, Apple's to its offer when both texts fit.
  lemma TypesLead(minor: nat, login: Login)
    ensures login.username == [] && login.password == [] ==>
              After(minor, 1, login) == if minor == 8 then WantResult else Finished
    ensures login.username == [] && login.password != [] ==> After(minor, 1, login) == Failed
    ensures login.username == [] ==> After(minor, 2, login) == WantChallenge && After(minor, 30, login) == Failed
    ensures login.username != [] ==> After(minor, 1, login) == Failed == After(minor, 2, login)
    ensures login.username != [] ==>
              After(minor, 30, login) == if |login.username| <= 63 && |login.password| <= 63 then WantOffer else Failed
  {}

  /****** Security type 30 ******/

  lemma BigEndianTwo(a: Byte, b: Byte)
    ensures BigEndian([a, b]) == 256 * a + b
  {
    assert [a, b][..1] == [a] && [a][..0] == [];
    assert BigEndian([a]) == a;
  }

  // Two bytes of generator, two of length, then the prime and the server's value.
  lemma OfferOnTheWire(g1: Byte, g2: Byte, l1: Byte, l2: Byte, prime: nat, serverPublic: nat)
    requires var length := 256 * l1 + l2; prime < Pow(256, length) && serverPublic < Pow(256, length)
    ensures var header: Header, length := [g1, g2, l1, l2], 256 * l1 + l2;
            && BigEndian(header[2..]) == length
            && |FillBytes(prime, length) + FillBytes(serverPublic, length)| == 2 * length
            && ReadOffer(header, FillBytes(prime, length) + FillBytes(serverPublic, length))
               == Offer(256 * g1 + g2, length, prime, serverPublic)
  {
    var header: Header, length := [g1, g2, l1, l2], 256 * l1 + l2;
    assert header[..2] == [g1, g2] && header[2..] == [l1, l2];
    BigEndianTwo(g1, g2);
    BigEndianTwo(l1, l2);
    FillRoundTrip(prime, length);
    FillRoundTrip(serverPublic, length);
    var p, q := FillBytes(prime, length), FillBytes(serverPublic, length);
    assert (p + q)[..length] == p && (p + q)[length..] == q;
  }

  // Keys of 64 to 512 bytes are exchanged, and none beside.
  lemma KeyLengths(g1: Byte, g2: Byte, l1: Byte, l2: Byte, login: Login)
    ensures var header: Header := [g1, g2, l1, l2];
            Feed(WantOffer, header, login)
            == (if 64 <= 256 * l1 + l2 <= 512 then WantParameters(header) else Failed, [])
  {
    var header: Header := [g1, g2, l1, l2];
    assert header[2..] == [l1, l2];
    BigEndianTwo(l1, l2);
  }

  // Every exponent of the range is drawn, each by one value below the bound.
  lemma EveryExponentDrawn(o: Offer, random: Random, exponent: nat)
    requires o.prime > 3 && 2 <= exponent <= o.prime - 2 && random.draw(o.prime - 3) < o.prime - 3
    ensures Private(o, random) == exponent <==> random.draw(o.prime - 3) == exponent - 2
  {
    Small(random.draw(o.prime - 3), o.prime - 3);
  }

  lemma Small(v: nat, d: nat)
    requires v < d
    ensures v % d == v
  {}

  // What a field does not fill stays random.
  lemma FillerStays(text: Bytes, filler: Bytes, i: nat)
    requires |text| < 64 == |filler| && i < 64
    ensures |Field(text, filler)| == 64
    ensures Field(text, filler)[i] == if i < |text| then text[i] else if i == |text| then 0 else filler[i]
  {}
}
