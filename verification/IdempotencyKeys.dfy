/** The key space: sanitised client keys, cache and lock keys, and the Redis prefixes. */
module IdempotencyKeys {

  /** The classes of package unicode, as far as the code asks for them. */
  datatype Classes = Classes(letter: char -> bool, digit: char -> bool, space: char -> bool)

  /** White space is neither letter nor digit, and a colon is neither. */
  ghost predicate Apart(u: Classes)
  {
    && (forall c :: u.space(c) ==> !u.letter(c) && !u.digit(c) && c != '_' && c != '-')
    && !u.letter(':') && !u.digit(':')
  }

  predicate Kept(u: Classes, c: char)
  {
    u.letter(c) || u.digit(c) || c == '_' || c == '-'
  }

  function Utf8Length(c: char): (n: nat)
    ensures 1 <= n <= 4 && (n == 1 <==> (c as int) < 0x80)
    ensures (n <= 2 <==> (c as int) < 0x800) && (n <= 3 <==> (c as int) < 0x1_0000)
  {
    var code := c as int;
    if code < 0x80 then 1 else if code < 0x800 then 2 else if code < 0x1_0000 then 3 else 4
  }

  function Bytes(s: string): nat
  {
    if s == [] then 0 else Bytes(s[..|s| - 1]) + Utf8Length(s[|s| - 1])
  }

  lemma BytesSnoc(s: string, c: char)
    ensures Bytes(s + [c]) == Bytes(s) + Utf8Length(c)
  {
    assert (s + [c])[..|s|] == s;
  }

  function TrimLeft(u: Classes, s: string): string
  {
    if s != [] && u.space(s[0]) then TrimLeft(u, s[1..]) else s
  }

  function TrimRight(u: Classes, s: string): string
  {
    if s != [] && u.space(s[|s| - 1]) then TrimRight(u, s[..|s| - 1]) else s
  }

  const MAX_KEY: nat := 128

  /** Appends the kept characters of `s` to `done` until it has MAX_KEY bytes. */
  function Fill(u: Classes, done: string, s: string): string
    decreases |s|
  {
    if s == [] || Bytes(done) >= MAX_KEY then done
    else Fill(u, if Kept(u, s[0]) then done + [s[0]] else done, s[1..])
  }

  function Sanitize(u: Classes, key: string): string
  {
    Fill(u, [], TrimRight(u, TrimLeft(u, key)))
  }

  method SanitizeIdempotencyKey(u: Classes, key: string) returns (b: string)
    ensures b == Sanitize(u, key)
  {
    var s := TrimRight(u, TrimLeft(u, key));
    b := [];
    var i := 0;
    while i < |s|
      invariant 0 <= i <= |s|
      invariant Fill(u, b, s[i..]) == Sanitize(u, key)
    {
      assert s[i..][1..] == s[i + 1..];
      if Bytes(b) >= MAX_KEY {
        break;
      }
      if u.letter(s[i]) || u.digit(s[i]) || s[i] == '_' || s[i] == '-' {
        b := b + [s[i]];
      }
      i := i + 1;
    }
  }

  // ---- what is left of a key ---------------------------------------------------------------------------

  /** All kept characters of `s`, in order. */
  function KeptOnly(u: Classes, s: string): string
  {
    if s == [] then [] else if Kept(u, s[0]) then [s[0]] + KeptOnly(u, s[1..]) else KeptOnly(u, s[1..])
  }

  lemma {:induction false} KeptConcat(u: Classes, s: string, t: string)
    ensures KeptOnly(u, s + t) == KeptOnly(u, s) + KeptOnly(u, t)
    decreases |s|
  {
    if s == [] {
      assert s + t == t;
    } else {
      assert (s + t)[0] == s[0] && (s + t)[1..] == s[1..] + t;
      KeptConcat(u, s[1..], t);
      assert [s[0]] + KeptOnly(u, s[1..]) + KeptOnly(u, t) == [s[0]] + (KeptOnly(u, s[1..]) + KeptOnly(u, t));
    }
  }

  /** Fill adds a prefix of the kept characters: all of them, or as many as it takes to reach MAX_KEY bytes. */
  lemma {:induction false} FillIsPrefix(u: Classes, done: string, s: string) returns (n: nat)
    ensures n <= |KeptOnly(u, s)| && Fill(u, done, s) == done + KeptOnly(u, s)[..n]
    ensures n == |KeptOnly(u, s)| || Bytes(Fill(u, done, s)) >= MAX_KEY
    ensures n == 0 || Bytes(done + KeptOnly(u, s)[..n - 1]) < MAX_KEY
    decreases |s|
  {
    if s == [] || Bytes(done) >= MAX_KEY {
      n := 0;
    } else if !Kept(u, s[0]) {
      n := FillIsPrefix(u, done, s[1..]);
    } else {
      var c, rest := [s[0]], KeptOnly(u, s[1..]);
      n := FillIsPrefix(u, done + c, s[1..]);
      PrefixShift(done, c, rest, n);
      if n > 0 {
        PrefixShift(done, c, rest, n - 1);
      } else {
        assert done + (c + rest)[..0] == done;
      }
      n := n + 1;
    }
  }

  lemma PrefixShift(done: string, c: string, rest: string, n: nat)
    requires |c| == 1 && n <= |rest|
    ensures done + c + rest[..n] == done + (c + rest)[..n + 1]
  {
  }

  lemma {:induction false} SpacesDropped(u: Classes, s: string)
    requires Apart(u)
    ensures KeptOnly(u, TrimRight(u, TrimLeft(u, s))) == KeptOnly(u, s)
  {
    LeftDropped(u, s);
    RightDropped(u, TrimLeft(u, s));
  }

  lemma {:induction false} LeftDropped(u: Classes, s: string)
    requires Apart(u)
    ensures KeptOnly(u, TrimLeft(u, s)) == KeptOnly(u, s)
    decreases |s|
  {
    if s != [] && u.space(s[0]) {
      LeftDropped(u, s[1..]);
    }
  }

  lemma {:induction false} RightDropped(u: Classes, s: string)
    requires Apart(u)
    ensures KeptOnly(u, TrimRight(u, s)) == KeptOnly(u, s)
    decreases |s|
  {
    if s != [] && u.space(s[|s| - 1]) {
      var front, last := s[..|s| - 1], [s[|s| - 1]];
      RightDropped(u, front);
      assert s == front + last;
      KeptConcat(u, front, last);
      assert last[1..] == [] && KeptOnly(u, last) == [];
    }
  }

  /**
   * The sanitised key is the shortest prefix of the kept characters that has MAX_KEY bytes, or all of
   * them; trimming changes nothing.
   */
  lemma SanitizedIsPrefix(u: Classes, key: string) returns (n: nat)
    requires Apart(u)
    ensures n <= |KeptOnly(u, key)| && Sanitize(u, key) == KeptOnly(u, key)[..n]
    ensures n == |KeptOnly(u, key)| || Bytes(Sanitize(u, key)) >= MAX_KEY
    ensures n == 0 || Bytes(KeptOnly(u, key)[..n - 1]) < MAX_KEY
  {
    var s := TrimRight(u, TrimLeft(u, key));
    SpacesDropped(u, key);
    n := FillIsPrefix(u, [], s);
    assert [] + KeptOnly(u, key)[..n] == KeptOnly(u, key)[..n];
    if n > 0 {
      assert [] + KeptOnly(u, key)[..n - 1] == KeptOnly(u, key)[..n - 1];
    }
  }

  lemma {:induction false} KeptAllKept(u: Classes, s: string)
    ensures forall i | 0 <= i < |KeptOnly(u, s)| :: Kept(u, KeptOnly(u, s)[i])
    decreases |s|
  {
    if s != [] { KeptAllKept(u, s[1..]); }
  }

  lemma {:induction false} KeptUnchanged(u: Classes, s: string)
    requires forall i | 0 <= i < |s| :: Kept(u, s[i])
    ensures KeptOnly(u, s) == s
    decreases |s|
  {
    if s != [] { KeptUnchanged(u, s[1..]); }
  }

  /** At most 131 bytes, and at most 128 if the last character is ASCII; every character is safe. */
  lemma SanitizedBounds(u: Classes, key: string)
    requires Apart(u)
    ensures var k := Sanitize(u, key);
            && Bytes(k) <= MAX_KEY + 3
            && (k != [] && (k[|k| - 1] as int) < 0x80 ==> Bytes(k) <= MAX_KEY)
            && (forall i | 0 <= i < |k| :: Kept(u, k[i]) && k[i] != ':')
            && (forall i | 0 <= i < |k| :: u.letter(k[i]) || u.digit(k[i]) || k[i] == '_' || k[i] == '-')
  {
    var n := SanitizedIsPrefix(u, key);
    KeptAllKept(u, key);
    if n > 0 {
      assert KeptOnly(u, key)[..n][..n - 1] == KeptOnly(u, key)[..n - 1];
    }
  }

  /** Sanitising twice is sanitising once. */
  lemma SanitizeIdempotent(u: Classes, key: string)
    requires Apart(u)
    ensures Sanitize(u, Sanitize(u, key)) == Sanitize(u, key)
  {
    var k := Sanitize(u, key);
    var n := SanitizedIsPrefix(u, key);
    KeptAllKept(u, key);
    KeptUnchanged(u, k);
    var m := SanitizedIsPrefix(u, k);
    if m < n {
      assert k[..m] == KeptOnly(u, key)[..m];
      BytesMonotone(KeptOnly(u, key), m, n - 1);
    } else {
      assert k[..m] == k;
    }
  }

  lemma {:induction false} BytesMonotone(s: string, i: nat, j: nat)
    requires i <= j <= |s|
    ensures Bytes(s[..i]) <= Bytes(s[..j])
    decreases j
  {
    if i < j {
      assert s[..j][..j - 1] == s[..j - 1];
      BytesMonotone(s, i, j - 1);
    }
  }

  // ---- when a key outgrows MAX_KEY -----------------------------------------------------------------------

  /** A key has more than MAX_KEY bytes exactly if one kept character straddles the limit. */
  lemma KeyOverflowsIff(u: Classes, key: string)
    requires Apart(u)
    ensures var kept := KeptOnly(u, key);
            Bytes(Sanitize(u, key)) > MAX_KEY
            <==> exists n | 0 < n <= |kept| :: Bytes(kept[..n - 1]) < MAX_KEY < Bytes(kept[..n])
  {
    var kept := KeptOnly(u, key);
    var n := SanitizedIsPrefix(u, key);
    forall m | 0 < m <= |kept| && Bytes(kept[..m - 1]) < MAX_KEY < Bytes(kept[..m]) ensures m == n {
      if n < m {
        BytesMonotone(kept, n, m - 1);
      } else if m < n {
        BytesMonotone(kept, m, n - 1);
      }
    }
  }

  function Underscores(n: nat): string
  {
    seq(n, _ => '_')
  }

  lemma {:induction false} UnderscoreBytes(n: nat)
    ensures Bytes(Underscores(n)) == n
  {
    if n > 0 {
      UnderscoreBytes(n - 1);
      BytesSnoc(Underscores(n - 1), '_');
      assert Underscores(n) == Underscores(n - 1) + ['_'];
    }
  }

  lemma {:induction false} AsciiBytes(s: string)
    requires forall i | 0 <= i < |s| :: (s[i] as int) < 0x80
    ensures Bytes(s) == |s|
  {
    if s != [] { AsciiBytes(s[..|s| - 1]); }
  }

  /** A key of at most 128 ASCII letters, digits, underscores and hyphens is returned as it is. */
  lemma PlainKeyUnchanged(u: Classes, key: string)
    requires Apart(u) && |key| <= 128
    requires forall i | 0 <= i < |key| ::
               (key[i] as int) < 0x80 && (u.letter(key[i]) || u.digit(key[i]) || key[i] == '_' || key[i] == '-')
    ensures Sanitize(u, key) == key
  {
    KeptUnchanged(u, key);
    var n := SanitizedIsPrefix(u, key);
    AsciiBytes(key[..n]);
    assert key[..|key|] == key;
  }

  /** 127 underscores and one more kept character are a key of up to 131 bytes, and nothing of it is cut. */
  lemma LongKey(u: Classes, c: char)
    requires Apart(u) && Kept(u, c)
    ensures Sanitize(u, Underscores(MAX_KEY - 1) + [c]) == Underscores(MAX_KEY - 1) + [c]
    ensures Bytes(Underscores(MAX_KEY - 1) + [c]) == MAX_KEY - 1 + Utf8Length(c)
  {
    var front := Underscores(MAX_KEY - 1);
    var key := front + [c];
    UnderscoreBytes(MAX_KEY - 1);
    BytesSnoc(front, c);
    KeptUnchanged(u, key);
    var n := SanitizedIsPrefix(u, key);
    assert key[..|key| - 1] == front && key[..|key|] == key;
    if n < |key| {
      BytesMonotone(key, n, |key| - 1);
    }
  }

  /** Every key fits into MAX_KEY bytes exactly if only ASCII characters are kept, as the comment has it. */
  lemma KeysFitIffAscii(u: Classes)
    requires Apart(u)
    ensures (forall key :: Bytes(Sanitize(u, key)) <= MAX_KEY) <==> (forall c | Kept(u, c) :: (c as int) < 0x80)
  {
    if c :| Kept(u, c) && (c as int) >= 0x80 {
      LongKey(u, c);
    } else {
      forall key ensures Bytes(Sanitize(u, key)) <= MAX_KEY {
        SanitizedBounds(u, key);
      }
    }
  }

  // ---- cache keys and lock keys --------------------------------------------------------------------------

  predicate Hex(c: char)
  {
    '0' <= c <= '9' || 'a' <= c <= 'f'
  }

  /** A SHA-256 digest in hexadecimal. */
  ghost predicate Digest(hash: string)
  {
    |hash| == 64 && forall i | 0 <= i < |hash| :: Hex(hash[i])
  }

  function CacheKey(key: string, hash: string): string
  {
    "register:" + key + ":" + hash
  }

  function LockKey(cacheKey: string): string
  {
    cacheKey + ":lock"
  }

  /** Sanitised key and body hash can be read back from the cache key, and no lock key is a cache key. */
  lemma CacheKeysInjective(u: Classes, key: string, key': string, hash: string, hash': string)
    requires Apart(u) && Digest(hash) && Digest(hash')
    ensures CacheKey(Sanitize(u, key), hash) == CacheKey(Sanitize(u, key'), hash')
            <==> Sanitize(u, key) == Sanitize(u, key') && hash == hash'
    ensures LockKey(CacheKey(Sanitize(u, key), hash)) != CacheKey(Sanitize(u, key'), hash')
  {
    SanitizedBounds(u, key);
    SanitizedBounds(u, key');
    var k, k' := Sanitize(u, key), Sanitize(u, key');
    var a, a' := CacheKey(k, hash), CacheKey(k', hash');
    var p := |"register:"|;
    assert a[p + |k|] == ':' && a'[p + |k'|] == ':';
    assert a[p..p + |k|] == k && a'[p..p + |k'|] == k';
    assert forall i | 0 <= i < |k| :: a[p + i] == k[i];
    assert forall i | 0 <= i < |k'| :: a'[p + i] == k'[i];
    if a == a' {
      assert |k| == |k'|;
      assert a[p + |k| + 1..] == hash && a'[p + |k'| + 1..] == hash';
    }
    assert a'[|a'| - 1] == hash'[63];
    assert LockKey(a)[|LockKey(a)| - 1] == 'k';
  }

  // ---- Redis prefixes --------------------------------------------------------------------------------------

  const PREFIXES: set<string> :=
    {"session:", "user_sessions:", "blacklist:", "lockout:", "login_fail:", "ratelimit:", "idem:"}

  /** Keys of different concerns never meet, so each concern may be modelled by a map of its own. */
  lemma NamespacesDisjoint(p: string, q: string, x: string, y: string)
    requires p in PREFIXES && q in PREFIXES && p + x == q + y
    ensures p == q && x == y
  {
    assert p[0] == (p + x)[0] && q[0] == (q + y)[0];
    assert p[2] == (p + x)[2] && q[2] == (q + y)[2];
    assert x == (p + x)[|p|..] && y == (q + y)[|q|..];
  }
}
