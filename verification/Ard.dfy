// The key agreement and credential block of Apple Remote Desktop
// authentication (backend/vnc/ard.go).
module Ard {
  import opened Common

  /****** Big-endian numbers ******/

  function Pow(b: nat, e: nat): nat {
    if e == 0 then 1 else b * Pow(b, e - 1)
  }

  function BigEndian(s: Bytes): nat {
    if s == [] then 0 else 256 * BigEndian(s[..|s| - 1]) + s[|s| - 1]
  }

  // FillBytes: the number in exactly `length` bytes.
  function FillBytes(v: nat, length: nat): (s: Bytes)
    ensures |s| == length
  {
    if length == 0 then [] else FillBytes(v / 256, length - 1) + [v % 256]
  }

  lemma {:induction false} BigEndianBound(s: Bytes)
    ensures BigEndian(s) < Pow(256, |s|)
  {
    if s != [] {
      BigEndianBound(s[..|s| - 1]);
    }
  }

  // A number that fits is read back unchanged.
  lemma {:induction false} FillRoundTrip(v: nat, length: nat)
    requires v < Pow(256, length)
    ensures BigEndian(FillBytes(v, length)) == v
  {
    if length > 0 {
      FillRoundTrip(v / 256, length - 1);
      var s := FillBytes(v, length);
      assert s[..|s| - 1] == FillBytes(v / 256, length - 1);
    }
  }

  /****** Modular powers ******/

  function ModExp(b: nat, e: nat, m: nat): nat
    requires m > 0
  {
    Pow(b, e) % m
  }

  lemma ModProduct(x: nat, y: nat, m: nat)
    requires m > 0
    ensures (x % m) * y % m == x * y % m
  {
    Scaled(x, y, x / m, m, x % m);
  }

  lemma Scaled(x: nat, y: nat, q: nat, m: nat, r: nat)
    requires m > 0 && x == q * m + r
    ensures x * y % m == r * y % m
  {
    Distributes(q, m, r, y);
    ProductIsNat(r, y);
    ProductIsNat(q, y);
    AddMultiple(r * y, q * y, m);
  }

  lemma Distributes(q: int, m: int, r: int, y: int)
    ensures (q * m + r) * y == (q * y) * m + r * y
  {
    assert (q * m) * y == (q * y) * m;
  }

  lemma ProductIsNat(a: nat, b: nat)
    ensures a * b >= 0
  {}

  lemma AddMultiple(x: nat, k: nat, m: nat)
    requires m > 0
    ensures (k * m + x) % m == x % m
  {
    assert k * m + x == (k + x / m) * m + x % m;
    RemainderUnique(k * m + x, k + x / m, x % m, m);
  }

  lemma MultipleSize(d: int, m: nat)
    ensures d > 0 ==> d * m >= m
    ensures d < 0 ==> d * m <= -(m as int)
  {
  }

  lemma RemainderUnique(x: nat, q: nat, r: nat, m: nat)
    requires r < m && x == q * m + r
    ensures x % m == r
  {
    var d := q - x / m;
    assert d * m == x % m - r;
    MultipleSize(d, m);
  }

  lemma {:induction false} PowMod(b: nat, e: nat, m: nat)
    requires m > 0
    ensures Pow(b % m, e) % m == Pow(b, e) % m
  {
    if e > 0 {
      var p, q := Pow(b % m, e - 1), Pow(b, e - 1);
      PowMod(b, e - 1, m);
      ModProduct(b, p, m);
      assert (b % m) * p % m == b * p % m;
      ModProduct(p, b, m);
      ModProduct(q, b, m);
      assert p * b == b * p && q * b == b * q;
    }
  }

  lemma {:induction false} PowAdd(b: nat, x: nat, y: nat)
    ensures Pow(b, x + y) == Pow(b, x) * Pow(b, y)
  {
    if x > 0 {
      PowAdd(b, x - 1, y);
      assert Pow(b, x + y) == b * Pow(b, x - 1 + y);
      assert b * (Pow(b, x - 1) * Pow(b, y)) == (b * Pow(b, x - 1)) * Pow(b, y);
    }
  }

  lemma {:induction false} PowPow(b: nat, x: nat, y: nat)
    ensures Pow(Pow(b, x), y) == Pow(b, x * y)
  {
    if y > 0 {
      PowPow(b, x, y - 1);
      PowAdd(b, x, x * (y - 1));
      assert x + x * (y - 1) == x * y;
    } else {
      assert x * y == 0;
    }
  }

  // Both ends of a Diffie-Hellman exchange reach the same value.
  lemma SharedAgree(g: nat, a: nat, b: nat, m: nat)
    requires m > 0
    ensures ModExp(ModExp(g, b, m), a, m) == ModExp(ModExp(g, a, m), b, m)
  {
    PowMod(Pow(g, b), a, m);
    PowMod(Pow(g, a), b, m);
    PowPow(g, b, a);
    PowPow(g, a, b);
    assert b * a == a * b;
  }

  /****** Parameters ******/

  // What the server's key exchange message carries.
  datatype Offer = Offer(generator: nat, length: nat, prime: nat, serverPublic: nat)

  type Header = s: Bytes | |s| == 4 witness [0, 0, 0, 0]

  function ReadOffer(header: Header, parameters: Bytes): Offer
    requires |parameters| == 2 * BigEndian(header[2..])
  {
    var length := BigEndian(header[2..]);
    Offer(BigEndian(header[..2]), length, BigEndian(parameters[..length]), BigEndian(parameters[length..]))
  }

  function BitLength(v: nat): nat {
    if v == 0 then 0 else BitLength(v / 2) + 1
  }

  // At least 512 bits, odd, with both numbers strictly between 1 and prime - 1.
  predicate Acceptable(o: Offer) {
    && BitLength(o.prime) >= 512 && o.prime % 2 == 1
    && 1 < o.generator < o.prime - 1 && 1 < o.serverPublic < o.prime - 1
  }

  lemma PowerOfTwo(e: nat)
    ensures Pow(2, e) >= 1
  {}

  lemma {:induction false} BitLengthAtLeast(v: nat, n: nat)
    requires n > 0
    ensures BitLength(v) >= n <==> v >= Pow(2, n - 1)
  {
    PowerOfTwo(n - 1);
    if n == 1 {
      assert v > 0 ==> BitLength(v) == BitLength(v / 2) + 1;
    } else if v > 0 {
      BitLengthAtLeast(v / 2, n - 1);
      assert Pow(2, n - 1) == 2 * Pow(2, n - 2);
    }
  }

  // The prime is odd and at least 2 to the power 511, and neither number is 0, 1
  // or -1 modulo it.
  lemma AcceptableOffers(o: Offer, top: nat)
    requires top == 511
    ensures Acceptable(o) <==> o.prime >= Pow(2, top) && o.prime % 2 == 1 && o.prime > 3
                               && Between(o.prime, o.generator) && Between(o.prime, o.serverPublic)
  {
    BitLengthAtLeast(o.prime, top + 1);
    assert BitLength(o.prime) >= 512 <==> o.prime >= Pow(2, top);
    PrimeIsLargeOr(o);
  }

  predicate Between(prime: nat, v: nat) {
    v < prime && v != 0 && v != 1 && v != prime - 1
  }

  lemma PrimeIsLargeOr(o: Offer)
    ensures BitLength(o.prime) >= 512 ==> o.prime > 3
  {
    assert BitLength(0) == 0 && BitLength(1) == 1 && BitLength(2) == 2 && BitLength(3) == 2;
  }

  lemma PrimeIsLarge(o: Offer)
    requires Acceptable(o)
    ensures o.prime > 3
  {
    PrimeIsLargeOr(o);
  }

  // Randomness of one exchange: a draw below a bound, and 128 filler bytes.
  type Filler = s: Bytes | |s| == 128 witness seq<Byte>(128, _ => 0)

  datatype Random = Random(draw: nat -> nat, filler: Filler)

  // A uniform draw below prime - 3, shifted by two.
  function Private(o: Offer, random: Random): nat
    requires o.prime > 3
  {
    random.draw(o.prime - 3) % (o.prime - 3) + 2
  }

  /****** The credential block ******/

  // MD5 and the AES block function, with the inverse a server uses.
  datatype Ciphers = Ciphers(digest: Bytes -> Bytes, seal: (Bytes, Bytes) -> Bytes, unseal: (Bytes, Bytes) -> Bytes)

  ghost predicate BlockCipher(c: Ciphers) {
    forall k: Bytes, x: Bytes :: |x| == 16 ==> |c.seal(k, x)| == 16 && c.unseal(k, c.seal(k, x)) == x
  }

  // One half of the block: the text, a NUL, and filler.
  function Field(text: Bytes, filler: Bytes): Bytes
    requires |text| < 64 == |filler|
  {
    text + [0] + filler[|text| + 1..]
  }

  function Credentials(username: Bytes, password: Bytes, filler: Filler): Bytes
    requires |username| < 64 && |password| < 64
  {
    Field(username, filler[..64]) + Field(password, filler[64..])
  }

  function UntilNul(s: Bytes): Bytes {
    if s == [] || s[0] == 0 then [] else [s[0]] + UntilNul(s[1..])
  }

  // Splitting a half at its first NUL gives the text back exactly when the
  // text has no NUL of its own.
  lemma {:induction false} FieldSplits(text: Bytes, filler: Bytes)
    requires |text| < 64 == |filler|
    ensures UntilNul(Field(text, filler)) == text <==> 0 !in text
  {
    SplitAtNul(text, filler[|text| + 1..]);
    assert Field(text, filler) == text + ([0] + filler[|text| + 1..]);
  }

  lemma {:induction false} SplitAtNul(text: Bytes, rest: Bytes)
    ensures 0 !in text ==> UntilNul(text + ([0] + rest)) == text
    ensures 0 in text ==> |UntilNul(text + ([0] + rest))| < |text|
  {
    var s := text + ([0] + rest);
    if text != [] && text[0] != 0 {
      assert s[1..] == text[1..] + ([0] + rest);
      SplitAtNul(text[1..], rest);
      assert text == [text[0]] + text[1..];
    }
  }

  // Block by block, as the loop over offsets of 16.
  function SealBlocks(key: Bytes, data: Bytes, c: Ciphers): Bytes {
    if |data| < 16 then [] else SealBlocks(key, data[..|data| - 16], c) + c.seal(key, data[|data| - 16..])
  }

  function UnsealBlocks(key: Bytes, data: Bytes, c: Ciphers): Bytes {
    if |data| < 16 then [] else UnsealBlocks(key, data[..|data| - 16], c) + c.unseal(key, data[|data| - 16..])
  }

  lemma {:induction false} BlocksRoundTrip(key: Bytes, data: Bytes, c: Ciphers)
    requires BlockCipher(c) && |data| % 16 == 0
    ensures |SealBlocks(key, data, c)| == |data| && UnsealBlocks(key, SealBlocks(key, data, c), c) == data
    decreases |data|
  {
    if |data| >= 16 {
      var front, last := data[..|data| - 16], data[|data| - 16..];
      BlocksRoundTrip(key, front, c);
      var sealed := SealBlocks(key, data, c);
      assert sealed[..|sealed| - 16] == SealBlocks(key, front, c) && sealed[|sealed| - 16..] == c.seal(key, last);
      assert front + last == data;
    }
  }

  method FillCredentials(username: Bytes, password: Bytes, filler: Filler) returns (credentials: array<Byte>)
    requires |username| < 64 && |password| < 64
    ensures fresh(credentials) && credentials[..] == Credentials(username, password, filler)
  {
    credentials := new Byte[128](i requires 0 <= i < 128 => filler[i]);
    Copy(credentials, 0, username);
    credentials[|username|] := 0;
    Copy(credentials, 64, password);
    credentials[64 + |password|] := 0;
    var want := Credentials(username, password, filler);
    forall i | 0 <= i < 128 ensures credentials[i] == want[i] {
    }
  }

  method Copy(a: array<Byte>, at: nat, text: Bytes)
    requires at + |text| <= a.Length
    modifies a
    ensures forall i :: 0 <= i < a.Length ==> a[i] == if at <= i < at + |text| then text[i - at] else old(a[i])
  {
    for k := 0 to |text|
      invariant forall i :: 0 <= i < a.Length ==> a[i] == if at <= i < at + k then text[i - at] else old(a[i])
    {
      a[at + k] := text[k];
    }
  }

  method EncryptBlock(a: array<Byte>, offset: nat, key: Bytes, c: Ciphers)
    requires offset + 16 <= a.Length && BlockCipher(c)
    modifies a
    ensures a[..offset] == old(a[..offset]) && a[offset + 16..] == old(a[offset + 16..])
    ensures a[offset..offset + 16] == c.seal(key, old(a[offset..offset + 16]))
  {
    var block := c.seal(key, a[offset..offset + 16]);
    Copy(a, offset, block);
  }

  lemma SealOneMore(key: Bytes, data: Bytes, offset: nat, c: Ciphers)
    requires BlockCipher(c) && offset % 16 == 0 && offset + 16 <= |data|
    ensures SealBlocks(key, data[..offset + 16], c)
         == SealBlocks(key, data[..offset], c) + c.seal(key, data[offset..offset + 16])
  {
    var front := data[..offset + 16];
    assert front[..offset] == data[..offset] && front[offset..] == data[offset..offset + 16];
  }

  // Encrypts a buffer in place, sixteen bytes at a time.
  method EncryptInPlace(a: array<Byte>, key: Bytes, c: Ciphers)
    requires a.Length % 16 == 0 && BlockCipher(c)
    modifies a
    ensures a[..] == SealBlocks(key, old(a[..]), c)
  {
    ghost var was := a[..];
    var offset := 0;
    while offset < a.Length
      invariant 0 <= offset <= a.Length && offset % 16 == 0
      invariant a[..offset] == SealBlocks(key, was[..offset], c)
      invariant a[offset..] == was[offset..]
    {
      SealOneMore(key, was, offset, c);
      ghost var rest := a[offset..];
      assert a[offset..offset + 16] == rest[..16] == was[offset..offset + 16];
      assert a[offset + 16..] == rest[16..] == was[offset + 16..];
      EncryptBlock(a, offset, key, c);
      assert a[..offset + 16] == a[..offset] + a[offset..offset + 16];
      offset := offset + 16;
    }
    assert was[..offset] == was && a[..offset] == a[..];
  }

  /****** The exchange ******/

  function Payload(o: Offer, username: Bytes, password: Bytes, random: Random, c: Ciphers): Bytes
    requires o.prime > 3 && |username| < 64 && |password| < 64
  {
    var private := Private(o, random);
    var shared := FillBytes(ModExp(o.serverPublic, private, o.prime), o.length);
    SealBlocks(c.digest(shared), Credentials(username, password, random.filler), c)
    + FillBytes(ModExp(o.generator, private, o.prime), o.length)
  }

  method Respond(o: Offer, username: Bytes, password: Bytes, random: Random, c: Ciphers) returns (payload: Bytes)
    requires o.prime > 3 && |username| < 64 && |password| < 64 && BlockCipher(c)
    ensures payload == Payload(o, username, password, random, c)
  {
    var private := Private(o, random);
    var public := FillBytes(ModExp(o.generator, private, o.prime), o.length);
    var shared := FillBytes(ModExp(o.serverPublic, private, o.prime), o.length);
    var credentials := FillCredentials(username, password, random.filler);
    EncryptInPlace(credentials, c.digest(shared), c);
    payload := credentials[..] + public;
  }

  // The server's side, with its secret exponent.
  function ServerShared(o: Offer, secret: nat, payload: Bytes): Bytes
    requires o.prime > 0 && |payload| >= 128
  {
    FillBytes(ModExp(BigEndian(payload[128..]), secret, o.prime), o.length)
  }

  function ServerReads(o: Offer, secret: nat, payload: Bytes, c: Ciphers): Bytes
    requires o.prime > 0 && |payload| >= 128
  {
    UnsealBlocks(c.digest(ServerShared(o, secret, payload)), payload[..128], c)
  }

  // For every accepted offer: the private exponent lies in [2, prime - 2] and
  // both numbers fit in `length` bytes.
  lemma ExponentAndSizes(header: Header, parameters: Bytes, random: Random)
    requires |parameters| == 2 * BigEndian(header[2..]) && Acceptable(ReadOffer(header, parameters))
    ensures var o := ReadOffer(header, parameters);
            && o.prime > 3 && 2 <= Private(o, random) <= o.prime - 2
            && ModExp(o.generator, Private(o, random), o.prime) < Pow(256, o.length)
            && ModExp(o.serverPublic, Private(o, random), o.prime) < Pow(256, o.length)
  {
    var o := ReadOffer(header, parameters);
    PrimeIsLarge(o);
    BigEndianBound(parameters[..o.length]);
  }

  // A server holding the exponent of its public value derives the same shared
  // secret, opens the block, and splits it into exactly the username and the
  // password sent, if and only if neither contains a NUL.
  lemma ServerOpensCredentials(header: Header, parameters: Bytes, secret: nat, username: Bytes, password: Bytes,
                               random: Random, c: Ciphers)
    requires |parameters| == 2 * BigEndian(header[2..]) && Acceptable(ReadOffer(header, parameters))
    requires var o := ReadOffer(header, parameters);
             o.prime > 3 && o.serverPublic == ModExp(o.generator, secret, o.prime)
    requires |username| < 64 && |password| < 64 && BlockCipher(c)
    ensures var o := ReadOffer(header, parameters);
            var payload := Payload(o, username, password, random, c);
            && |payload| == 128 + o.length
            && ServerShared(o, secret, payload)
               == FillBytes(ModExp(o.serverPublic, Private(o, random), o.prime), o.length)
            && |ServerReads(o, secret, payload, c)| == 128
            && ((UntilNul(ServerReads(o, secret, payload, c)[..64]) == username
                 && UntilNul(ServerReads(o, secret, payload, c)[64..]) == password)
                <==> 0 !in username && 0 !in password)
  {
    var o := ReadOffer(header, parameters);
    var private := Private(o, random);
    var payload := Payload(o, username, password, random, c);
    var public := ModExp(o.generator, private, o.prime);
    var key := c.digest(FillBytes(ModExp(o.serverPublic, private, o.prime), o.length));
    var block := Credentials(username, password, random.filler);
    ExponentAndSizes(header, parameters, random);
    BlocksRoundTrip(key, block, c);
    assert payload[128..] == FillBytes(public, o.length) && payload[..128] == SealBlocks(key, block, c);
    FillRoundTrip(public, o.length);
    SharedAgree(o.generator, private, secret, o.prime);
    FieldSplits(username, random.filler[..64]);
    FieldSplits(password, random.filler[64..]);
    assert block[..64] == Field(username, random.filler[..64]) && block[64..] == Field(password, random.filler[64..]);
  }
}
