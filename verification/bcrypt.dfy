/** The part of `golang.org/x/crypto/bcrypt` the services rely on.
    A password is hashed from its UTF-8 bytes. `GenerateFromPassword`
    refuses more than 72 of them. The key schedule reads 72 bytes of the
    password followed by a zero byte, repeated as often as needed, so
    only those 72 bytes decide a comparison. The cipher itself is a
    stand-in: the stored hash spells out the bytes the key schedule reads
    (salt and cost are left out). */
module Bcrypt {
  import opened Wrappers

  const MaxPasswordBytes := 72
  const PasswordTooLong := "bcrypt: password length exceeds 72 bytes"

  predicate IsByte(b: int) { 0 <= b < 256 }

  // ---------------------------------------------------------------------
  // UTF-8 (Go's `[]byte(s)`)
  // ---------------------------------------------------------------------

  /** The UTF-8 encoding of one character. */
  function EncodeChar(c: char): (b: seq<int>)
    ensures 1 <= |b| <= 4
    ensures forall i :: 0 <= i < |b| ==> IsByte(b[i])
  {
    var n := c as int;
    if n < 0x80 then [n]
    else if n < 0x800 then [0xC0 + n / 64, 0x80 + n % 64]
    else if n < 0x10000 then [0xE0 + n / 4096, 0x80 + (n / 64) % 64, 0x80 + n % 64]
    else [0xF0 + n / 262144, 0x80 + (n / 4096) % 64, 0x80 + (n / 64) % 64, 0x80 + n % 64]
  }

  /** The UTF-8 bytes of a string. */
  function Utf8(s: string): (b: seq<int>)
    ensures |b| >= |s|
    ensures forall i :: 0 <= i < |b| ==> IsByte(b[i])
  {
    if |s| == 0 then [] else EncodeChar(s[0]) + Utf8(s[1..])
  }

  /** How many bytes a character takes, read off its first byte. */
  function SequenceLength(lead: int): nat
  {
    if lead < 0x80 then 1 else if lead < 0xE0 then 2 else if lead < 0xF0 then 3 else 4
  }

  lemma EncodeCharLength(c: char)
    ensures |EncodeChar(c)| == SequenceLength(EncodeChar(c)[0])
  {
  }

  /** A number is fixed by its quotient and remainder by 64. */
  lemma SameDigits(n: nat, m: nat)
    requires n / 64 == m / 64 && n % 64 == m % 64
    ensures n == m
  {
  }

  lemma ShiftTwice(n: nat)
    ensures n / 64 / 64 == n / 4096
    ensures n / 4096 / 64 == n / 262144
  {
  }

  lemma EncodeCharInjective(c: char, d: char)
    requires EncodeChar(c) == EncodeChar(d)
    ensures c == d
  {
    var n, m := c as int, d as int;
    var e := EncodeChar(c);
    EncodeCharLength(c);
    ShiftTwice(n);
    ShiftTwice(m);
    if |e| == 2 {
      SameDigits(n, m);
    } else if |e| == 3 {
      SameDigits(n / 64, m / 64);
      SameDigits(n, m);
    } else if |e| == 4 {
      SameDigits(n / 4096, m / 4096);
      SameDigits(n / 64, m / 64);
      SameDigits(n, m);
    }
  }

  /** Different strings have different bytes. */
  lemma {:induction false} Utf8Injective(s: string, t: string)
    requires Utf8(s) == Utf8(t)
    ensures s == t
  {
    if |s| > 0 && |t| > 0 {
      var a, b := EncodeChar(s[0]), EncodeChar(t[0]);
      EncodeCharLength(s[0]);
      EncodeCharLength(t[0]);
      assert a[0] == Utf8(s)[0] == Utf8(t)[0] == b[0];
      assert a == Utf8(s)[..|a|] == Utf8(t)[..|b|] == b;
      EncodeCharInjective(s[0], t[0]);
      assert Utf8(s[1..]) == Utf8(s)[|a|..] == Utf8(t)[|b|..] == Utf8(t[1..]);
      Utf8Injective(s[1..], t[1..]);
      assert s == [s[0]] + s[1..] && t == [t[0]] + t[1..];
    }
  }

  /** A string without the NUL character has no zero byte. */
  lemma {:induction false} Utf8HasNoZero(s: string)
    requires '\0' !in s
    ensures 0 !in Utf8(s)
  {
    if |s| > 0 {
      assert s[0] != '\0';
      assert '\0' !in s[1..];
      Utf8HasNoZero(s[1..]);
    }
  }

  lemma {:induction false} Utf8OfAscii(s: string)
    requires forall i :: 0 <= i < |s| ==> s[i] as int < 0x80
    ensures Utf8(s) == seq(|s|, i requires 0 <= i < |s| => s[i] as int)
  {
    if |s| > 0 {
      Utf8OfAscii(s[1..]);
    }
  }

  // ---------------------------------------------------------------------
  // Hashing and comparing
  // ---------------------------------------------------------------------

  /** The 72 bytes the key schedule reads: the password's bytes and a
      terminating zero, repeated as often as needed. */
  function Key(password: string): (k: seq<int>)
    ensures |k| == MaxPasswordBytes
    ensures forall i :: 0 <= i < |k| ==> IsByte(k[i])
  {
    var z := Utf8(password) + [0];
    seq(MaxPasswordBytes, i requires 0 <= i < MaxPasswordBytes => z[i % |z|])
  }

  /** The stored hash of a password (a stand-in for the cipher text). */
  function HashOf(password: string): string
  {
    var k := Key(password);
    "$2a$" + seq(|k|, i requires 0 <= i < |k| => k[i] as char)
  }

  /** `CompareHashAndPassword` succeeds. */
  predicate Verify(hash: string, password: string)
  {
    hash == HashOf(password)
  }

  /** `GenerateFromPassword`: more than 72 bytes are refused. */
  function GenerateFromPassword(password: string): (r: Result<string>)
    ensures r.Err? <==> |Utf8(password)| > MaxPasswordBytes
    ensures r.Err? ==> r.msg == PasswordTooLong
    ensures r.Ok? ==> r.value == HashOf(password) && Verify(r.value, password)
  {
    if |Utf8(password)| > MaxPasswordBytes then Err(PasswordTooLong) else Ok(HashOf(password))
  }

  /** A hash verifies exactly the passwords whose key schedule reads the
      same 72 bytes as the hashed one's. */
  lemma VerifyHashOf(p: string, q: string)
    ensures Verify(HashOf(p), q) <==> Key(p) == Key(q)
  {
    if Verify(HashOf(p), q) {
      var kp, kq := Key(p), Key(q);
      forall i | 0 <= i < MaxPasswordBytes
        ensures kp[i] == kq[i]
      {
        assert HashOf(p)[4 + i] == HashOf(q)[4 + i];
      }
    }
  }

  /** The first zero byte of a key, or its length when it has none. */
  function FirstZero(k: seq<int>): (n: nat)
    ensures n <= |k|
    ensures forall i :: 0 <= i < n ==> k[i] != 0
    ensures n < |k| ==> k[n] == 0
  {
    if |k| == 0 || k[0] == 0 then 0 else 1 + FirstZero(k[1..])
  }

  /** Where the first zero byte is. */
  lemma FirstZeroAt(k: seq<int>, n: nat)
    requires n <= |k|
    requires forall i :: 0 <= i < n ==> k[i] != 0
    requires n < |k| ==> k[n] == 0
    ensures FirstZero(k) == n
  {
  }

  /** A key of a password that fits repeats nothing before the password's
      bytes and their terminating zero. */
  lemma KeyPrefix(p: string)
    requires |Utf8(p)| <= MaxPasswordBytes
    ensures forall i :: 0 <= i < |Utf8(p)| ==> Key(p)[i] == Utf8(p)[i]
    ensures |Utf8(p)| < MaxPasswordBytes ==> Key(p)[|Utf8(p)|] == 0
  {
    var z := Utf8(p) + [0];
    var k := Key(p);
    forall i | 0 <= i < |z| && i < MaxPasswordBytes
      ensures k[i] == z[i]
    {
      ModBelow(i, |z|);
    }
  }

  lemma ModBelow(i: nat, n: nat)
    requires i < n
    ensures i % n == i
  {
  }

  /** The key of a password that fits and holds no NUL character begins
      with the password's bytes, up to its first zero. */
  lemma KeyStartsWithBytes(p: string)
    requires |Utf8(p)| <= MaxPasswordBytes && '\0' !in p
    ensures Key(p)[..FirstZero(Key(p))] == Utf8(p)
  {
    var b, k := Utf8(p), Key(p);
    Utf8HasNoZero(p);
    KeyPrefix(p);
    assert forall i :: 0 <= i < |b| ==> k[i] != 0 by {
      forall i | 0 <= i < |b|
        ensures k[i] != 0
      {
        assert b[i] in b;
      }
    }
    FirstZeroAt(k, |b|);
  }

  /** Within 72 bytes and without NUL characters, a hash verifies the
      password it was made from and no other. */
  lemma OnlyThePasswordVerifies(p: string, q: string)
    requires |Utf8(p)| <= MaxPasswordBytes && '\0' !in p
    requires |Utf8(q)| <= MaxPasswordBytes && '\0' !in q
    ensures Verify(HashOf(p), q) <==> p == q
  {
    VerifyHashOf(p, q);
    if Key(p) == Key(q) {
      KeyStartsWithBytes(p);
      KeyStartsWithBytes(q);
      Utf8Injective(p, q);
    }
  }

  /** A password of 72 bytes also verifies any longer attempt that starts
      with it: the bytes past the 72nd are never read. */
  lemma LongerAttemptVerifies()
    ensures var p := seq(72, _ => 'a');
            && GenerateFromPassword(p).Ok?
            && Verify(GenerateFromPassword(p).value, p + "b")
            && p + "b" != p
  {
    var p := seq(72, _ => 'a');
    var q := p + "b";
    Utf8OfAscii(p);
    Utf8OfAscii(q);
    forall i | 0 <= i < MaxPasswordBytes
      ensures Key(p)[i] == Key(q)[i]
    {
      assert i % 73 == i && i % 74 == i;
    }
    VerifyHashOf(p, q);
  }
}
