/**
 * The XVC hashers of `src/auth/xvc/default.rs`.  Each one joins its seeds,
 * the user agent, the e-mail and (Win32 only) the device UUID with '|' and
 * returns the whole SHA-512 digest of that pre-image.  `full_xvc_hash` feeds
 * the nine pieces to an incremental hasher one `update` at a time; the
 * methods below do the same and are proved equal to one hash of the joined
 * pre-image.
 */
module Xvc {
  import opened Utf8
  import Sha512

  /** The pre-image of the Win32 format: "{first}|{user_agent}|{second}|{email}|{device_uuid}". */
  function Win32Preimage(first: string, second: string, deviceUuid: string, userAgent: string, email: string): string
  {
    first + "|" + userAgent + "|" + second + "|" + email + "|" + deviceUuid
  }

  /** The pre-image the Android sub-device hasher hashes, in the order its code uses. */
  function AndroidSubPreimage(first: string, second: string, third: string, userAgent: string, email: string): string
  {
    first + "|" + userAgent + "|" + second + "|" + email + "|" + third
  }

  /** The order the Android sub-device hasher's doc comment gives, which its code does not follow. */
  function DocumentedAndroidSubPreimage(first: string, second: string, third: string, userAgent: string, email: string): string
  {
    first + "|" + email + "|" + second + "|" + userAgent + "|" + third
  }

  /** `Win32XVCHasher`: the Win32 client's format, with two seeds. */
  datatype Win32XvcHasher = Win32XvcHasher(first: string, second: string)
  {
    /** `Win32XVCHasher::new`: stores both seeds unchanged. */
    static function New(first: string, second: string): (h: Win32XvcHasher)
      ensures h.first == first && h.second == second
    {
      Win32XvcHasher(first, second)
    }

    /** `Win32XVCHasher::new_const`: the same as `New` (borrowed seeds). */
    static function NewConst(first: string, second: string): (h: Win32XvcHasher)
      ensures h == New(first, second)
    {
      Win32XvcHasher(first, second)
    }

    /** `full_xvc_hash`: nine updates of one hasher state, then `finalize`. */
    method FullXvcHash(deviceUuid: string, userAgent: string, email: string, sha: Sha512.HashFunction)
      returns (digest: seq<byte>)
      ensures digest == sha(Encode(Win32Preimage(first, second, deviceUuid, userAgent, email)))
      ensures |digest| == Sha512.DigestLength
    {
      var hasher := new Sha512.Hasher();
      hasher.Update(first);
      assert hasher.message == Encode(first);
      hasher.Update("|");
      hasher.Update(userAgent);
      hasher.Update("|");
      hasher.Update(second);
      hasher.Update("|");
      hasher.Update(email);
      hasher.Update("|");
      hasher.Update(deviceUuid);
      EncodeJoined(first, userAgent, second, email, deviceUuid);
      digest := hasher.Finalize(sha);
    }
  }

  /** `AndroidSubXVCHasher`: the Android sub-device format, with three seeds. */
  datatype AndroidSubXvcHasher = AndroidSubXvcHasher(first: string, second: string, third: string)
  {
    /** `AndroidSubXVCHasher::new`: its `mid` argument becomes the second seed. */
    static function New(first: string, mid: string, third: string): (h: AndroidSubXvcHasher)
      ensures h.first == first && h.second == mid && h.third == third
    {
      AndroidSubXvcHasher(first, mid, third)
    }

    /** `AndroidSubXVCHasher::new_const`: the same as `New` (borrowed seeds). */
    static function NewConst(first: string, second: string, third: string): (h: AndroidSubXvcHasher)
      ensures h == New(first, second, third)
    {
      AndroidSubXvcHasher(first, second, third)
    }

    /** `full_xvc_hash`: the device UUID argument is not read. */
    method FullXvcHash(deviceUuid: string, userAgent: string, email: string, sha: Sha512.HashFunction)
      returns (digest: seq<byte>)
      ensures digest == sha(Encode(AndroidSubPreimage(first, second, third, userAgent, email)))
      ensures |digest| == Sha512.DigestLength
    {
      var hasher := new Sha512.Hasher();
      hasher.Update(first);
      assert hasher.message == Encode(first);
      hasher.Update("|");
      hasher.Update(userAgent);
      hasher.Update("|");
      hasher.Update(second);
      hasher.Update("|");
      hasher.Update(email);
      hasher.Update("|");
      hasher.Update(third);
      EncodeJoined(first, userAgent, second, email, third);
      digest := hasher.Finalize(sha);
    }
  }

  /**
   * The hashers a `TalkAuthClient` can be built with.  The source abstracts
   * them behind the `XVCHasher` trait; here the set is closed.
   */
  datatype XvcHasher = Win32(win32: Win32XvcHasher) | AndroidSub(androidSub: AndroidSubXvcHasher)
  {
    /** The string whose UTF-8 bytes the hasher digests. */
    function Preimage(deviceUuid: string, userAgent: string, email: string): string
    {
      match this
      case Win32(h) => Win32Preimage(h.first, h.second, deviceUuid, userAgent, email)
      case AndroidSub(h) => AndroidSubPreimage(h.first, h.second, h.third, userAgent, email)
    }

    /** What `full_xvc_hash` returns for these arguments. */
    function Digest(sha: Sha512.HashFunction, deviceUuid: string, userAgent: string, email: string): (d: seq<byte>)
      ensures |d| == Sha512.DigestLength
    {
      sha(Encode(Preimage(deviceUuid, userAgent, email)))
    }

    method FullXvcHash(deviceUuid: string, userAgent: string, email: string, sha: Sha512.HashFunction)
      returns (digest: seq<byte>)
      ensures digest == sha(Encode(Preimage(deviceUuid, userAgent, email)))
      ensures |digest| == Sha512.DigestLength
    {
      match this
      case Win32(h) =>
        digest := h.FullXvcHash(deviceUuid, userAgent, email, sha);
      case AndroidSub(h) =>
        digest := h.FullXvcHash(deviceUuid, userAgent, email, sha);
    }
  }

  /** Nine successive updates feed the bytes of the '|'-joined string. */
  lemma EncodeJoined(a: string, b: string, c: string, d: string, e: string)
    ensures Encode(a) + Encode("|") + Encode(b) + Encode("|") + Encode(c) + Encode("|")
            + Encode(d) + Encode("|") + Encode(e)
         == Encode(a + "|" + b + "|" + c + "|" + d + "|" + e)
  {
    EncodeConcat(a, "|");
    EncodeConcat(a + "|", b);
    EncodeConcat(a + "|" + b, "|");
    EncodeConcat(a + "|" + b + "|", c);
    EncodeConcat(a + "|" + b + "|" + c, "|");
    EncodeConcat(a + "|" + b + "|" + c + "|", d);
    EncodeConcat(a + "|" + b + "|" + c + "|" + d, "|");
    EncodeConcat(a + "|" + b + "|" + c + "|" + d + "|", e);
  }

  /**
   * The shape of a '|'-joined pre-image: its length, the first and last
   * operand in place, and exactly four separators besides those inside the
   * operands.
   */
  lemma {:induction false} JoinedShape(a: string, b: string, c: string, d: string, e: string)
    ensures var j := a + "|" + b + "|" + c + "|" + d + "|" + e;
      && |j| == |a| + |b| + |c| + |d| + |e| + 4
      && j[..|a|] == a
      && j[|j| - |e|..] == e
      && Count(j, '|') == Count(a, '|') + Count(b, '|') + Count(c, '|') + Count(d, '|') + Count(e, '|') + 4
  {
    var bar := "|";
    assert Count(bar, '|') == 1 by {
      assert bar[1..] == [];
    }
    CountConcat(a, bar, '|');
    CountConcat(a + bar, b, '|');
    CountConcat(a + bar + b, bar, '|');
    CountConcat(a + bar + b + bar, c, '|');
    CountConcat(a + bar + b + bar + c, bar, '|');
    CountConcat(a + bar + b + bar + c + bar, d, '|');
    CountConcat(a + bar + b + bar + c + bar + d, bar, '|');
    CountConcat(a + bar + b + bar + c + bar + d + bar, e, '|');
  }

  /** The Win32 pre-image starts with the first seed, ends with the device UUID and adds four separators. */
  lemma Win32PreimageShape(h: Win32XvcHasher, deviceUuid: string, userAgent: string, email: string)
    ensures var p := Win32Preimage(h.first, h.second, deviceUuid, userAgent, email);
      && p[..|h.first|] == h.first
      && p[|p| - |deviceUuid|..] == deviceUuid
      && Count(p, '|') == Count(h.first, '|') + Count(userAgent, '|') + Count(h.second, '|')
                          + Count(email, '|') + Count(deviceUuid, '|') + 4
      && Count(Encode(p), '|' as int) == Count(p, '|')
  {
    var p := Win32Preimage(h.first, h.second, deviceUuid, userAgent, email);
    JoinedShape(h.first, userAgent, h.second, email, deviceUuid);
    CountSeparatorBytes(p);
  }

  /** The Android sub-device pre-image starts with the first seed, ends with the third and adds four separators. */
  lemma AndroidSubPreimageShape(h: AndroidSubXvcHasher, userAgent: string, email: string)
    ensures var p := AndroidSubPreimage(h.first, h.second, h.third, userAgent, email);
      && p[..|h.first|] == h.first
      && p[|p| - |h.third|..] == h.third
      && Count(p, '|') == Count(h.first, '|') + Count(userAgent, '|') + Count(h.second, '|')
                          + Count(email, '|') + Count(h.third, '|') + 4
      && Count(Encode(p), '|' as int) == Count(p, '|')
  {
    var p := AndroidSubPreimage(h.first, h.second, h.third, userAgent, email);
    JoinedShape(h.first, userAgent, h.second, email, h.third);
    CountSeparatorBytes(p);
  }

  /**
   * Changing any one operand of the Win32 pre-image, the others fixed,
   * changes the bytes fed to SHA-512.
   */
  lemma Win32PreimageInjective(first: string, second: string, deviceUuid: string, userAgent: string, email: string, x: string)
    ensures Encode(Win32Preimage(x, second, deviceUuid, userAgent, email)) == Encode(Win32Preimage(first, second, deviceUuid, userAgent, email)) ==> x == first
    ensures Encode(Win32Preimage(first, x, deviceUuid, userAgent, email)) == Encode(Win32Preimage(first, second, deviceUuid, userAgent, email)) ==> x == second
    ensures Encode(Win32Preimage(first, second, x, userAgent, email)) == Encode(Win32Preimage(first, second, deviceUuid, userAgent, email)) ==> x == deviceUuid
    ensures Encode(Win32Preimage(first, second, deviceUuid, x, email)) == Encode(Win32Preimage(first, second, deviceUuid, userAgent, email)) ==> x == userAgent
    ensures Encode(Win32Preimage(first, second, deviceUuid, userAgent, x)) == Encode(Win32Preimage(first, second, deviceUuid, userAgent, email)) ==> x == email
  {
    var p := Win32Preimage(first, second, deviceUuid, userAgent, email);
    JoinInjective(first, userAgent, second, email, deviceUuid, x);
    EncodeInjectiveOn(Win32Preimage(x, second, deviceUuid, userAgent, email), p);
    EncodeInjectiveOn(Win32Preimage(first, x, deviceUuid, userAgent, email), p);
    EncodeInjectiveOn(Win32Preimage(first, second, x, userAgent, email), p);
    EncodeInjectiveOn(Win32Preimage(first, second, deviceUuid, x, email), p);
    EncodeInjectiveOn(Win32Preimage(first, second, deviceUuid, userAgent, x), p);
  }

  /**
   * Changing any one operand of the Android sub-device pre-image, the others
   * fixed, changes the bytes fed to SHA-512.
   */
  lemma AndroidSubPreimageInjective(first: string, second: string, third: string, userAgent: string, email: string, x: string)
    ensures Encode(AndroidSubPreimage(x, second, third, userAgent, email)) == Encode(AndroidSubPreimage(first, second, third, userAgent, email)) ==> x == first
    ensures Encode(AndroidSubPreimage(first, x, third, userAgent, email)) == Encode(AndroidSubPreimage(first, second, third, userAgent, email)) ==> x == second
    ensures Encode(AndroidSubPreimage(first, second, x, userAgent, email)) == Encode(AndroidSubPreimage(first, second, third, userAgent, email)) ==> x == third
    ensures Encode(AndroidSubPreimage(first, second, third, x, email)) == Encode(AndroidSubPreimage(first, second, third, userAgent, email)) ==> x == userAgent
    ensures Encode(AndroidSubPreimage(first, second, third, userAgent, x)) == Encode(AndroidSubPreimage(first, second, third, userAgent, email)) ==> x == email
  {
    var p := AndroidSubPreimage(first, second, third, userAgent, email);
    JoinInjective(first, userAgent, second, email, third, x);
    EncodeInjectiveOn(AndroidSubPreimage(x, second, third, userAgent, email), p);
    EncodeInjectiveOn(AndroidSubPreimage(first, x, third, userAgent, email), p);
    EncodeInjectiveOn(AndroidSubPreimage(first, second, x, userAgent, email), p);
    EncodeInjectiveOn(AndroidSubPreimage(first, second, third, x, email), p);
    EncodeInjectiveOn(AndroidSubPreimage(first, second, third, userAgent, x), p);
  }

  lemma EncodeInjectiveOn(a: string, b: string)
    ensures Encode(a) == Encode(b) ==> a == b
  {
    if Encode(a) == Encode(b) {
      EncodeInjective(a, b);
    }
  }

  /** Where each operand of a '|'-join sits. */
  lemma JoinSlices(a: string, b: string, c: string, d: string, e: string)
    ensures var j := a + "|" + b + "|" + c + "|" + d + "|" + e;
      var kb := |a| + 1; var kc := kb + |b| + 1; var kd := kc + |c| + 1; var ke := kd + |d| + 1;
      && |j| == ke + |e|
      && j[..|a|] == a
      && j[kb..kb + |b|] == b
      && j[kc - 1] == '|'
      && j[kc..kc + |c|] == c
      && j[kd..kd + |d|] == d
      && j[ke..] == e
  {
    var bar := "|";
    var l1 := a + bar;
    var l2 := l1 + b;
    var l3 := l2 + bar;
    var l4 := l3 + c;
    var l5 := l4 + bar;
    var l6 := l5 + d;
    var l7 := l6 + bar;
    var j := l7 + e;
    assert j[..|l6|] == l6 && l6[|l5|..] == d;
    assert j[..|l4|] == l4 by {
      assert j[..|l6|][..|l4|] == l6[..|l4|] == l4;
    }
    assert l4[|l3|..] == c;
    assert j[|l2|] == l4[|l2|] == '|';
    assert j[..|l2|] == l2 by {
      assert j[..|l4|][..|l2|] == l4[..|l2|] == l2;
    }
    assert l2[|l1|..] == b;
    assert j[..|a|] == a by {
      assert j[..|l2|][..|a|] == l2[..|a|] == a;
    }
  }

  /** Each of the five positions of a '|'-join is recoverable when the other four are fixed. */
  lemma JoinInjective(a: string, b: string, c: string, d: string, e: string, x: string)
    ensures x + "|" + b + "|" + c + "|" + d + "|" + e == a + "|" + b + "|" + c + "|" + d + "|" + e ==> x == a
    ensures a + "|" + x + "|" + c + "|" + d + "|" + e == a + "|" + b + "|" + c + "|" + d + "|" + e ==> x == b
    ensures a + "|" + b + "|" + x + "|" + d + "|" + e == a + "|" + b + "|" + c + "|" + d + "|" + e ==> x == c
    ensures a + "|" + b + "|" + c + "|" + x + "|" + e == a + "|" + b + "|" + c + "|" + d + "|" + e ==> x == d
    ensures a + "|" + b + "|" + c + "|" + d + "|" + x == a + "|" + b + "|" + c + "|" + d + "|" + e ==> x == e
  {
    JoinSlices(a, b, c, d, e);
    JoinSlices(x, b, c, d, e);
    JoinSlices(a, x, c, d, e);
    JoinSlices(a, b, x, d, e);
    JoinSlices(a, b, c, x, e);
    JoinSlices(a, b, c, d, x);
  }

  /** The Android sub-device digest does not depend on the device UUID argument. */
  lemma AndroidSubIgnoresDeviceUuid(h: AndroidSubXvcHasher, sha: Sha512.HashFunction, uuid1: string, uuid2: string, userAgent: string, email: string)
    ensures AndroidSub(h).Digest(sha, uuid1, userAgent, email) == AndroidSub(h).Digest(sha, uuid2, userAgent, email)
  {
  }

  /** The second field of a five-field join, and the '|' that closes it. */
  lemma SecondField(a: string, b: string, c: string, d: string, e: string)
    ensures var j := a + "|" + b + "|" + c + "|" + d + "|" + e;
      && |a| + |b| + 1 < |j|
      && j[|a| + 1..|a| + 1 + |b|] == b
      && j[|a| + 1 + |b|] == '|'
  {
    var l4 := a + "|" + b + "|";
    var l5 := l4 + c;
    var l6 := l5 + "|";
    var l7 := l6 + d;
    var l8 := l7 + "|";
    var j := l8 + e;
    forall k | 0 <= k < |l4| ensures j[k] == l4[k] {
      assert j[k] == l8[k] == l7[k] == l6[k] == l5[k];
    }
    forall k | 0 <= k < |b| ensures j[|a| + 1 + k] == b[k] {
      assert l4[|a| + 1 + k] == b[k];
    }
    assert j[|a| + 1 + |b|] == l4[|a| + 1 + |b|];
  }

  /**
   * The documented Android sub-device order differs from the coded one: when
   * neither the user agent nor the e-mail holds a '|' and they differ, the two
   * pre-images differ.
   */
  lemma DocumentedOrderDiffers(h: AndroidSubXvcHasher, userAgent: string, email: string)
    requires Count(userAgent, '|') == 0 && Count(email, '|') == 0
    requires userAgent != email
    ensures DocumentedAndroidSubPreimage(h.first, h.second, h.third, userAgent, email)
         != AndroidSubPreimage(h.first, h.second, h.third, userAgent, email)
  {
    var documented := DocumentedAndroidSubPreimage(h.first, h.second, h.third, userAgent, email);
    var coded := AndroidSubPreimage(h.first, h.second, h.third, userAgent, email);
    SecondField(h.first, email, h.second, userAgent, h.third);
    SecondField(h.first, userAgent, h.second, email, h.third);
    if documented == coded {
      // The second field starts at the same offset in both and ends at the first '|' after it.
      var k := |h.first| + 1;
      // Equal lengths would make the two fields equal; otherwise the shorter
      // one's closing '|' falls inside the longer one.
      if |email| < |userAgent| {
        assert coded[k + |email|] == '|';
        assert coded[k..k + |userAgent|][|email|] == userAgent[|email|];
        CountPositive(userAgent, |email|);
      } else if |userAgent| < |email| {
        assert coded[k + |userAgent|] == '|';
        assert coded[k..k + |email|][|userAgent|] == email[|userAgent|];
        CountPositive(email, |userAgent|);
      }
    }
  }
}
