/**
 The in-memory vault with its fallback cipher: HMAC in counter mode, then an HMAC tag.  HMAC is an
 arbitrary function with 32-byte results, so what is proved does not rest on its strength.
 */
module Vault {
  import opened Prelude

  type Bytes = seq<bv8>

  type Hmac = (Bytes, Bytes) -> Bytes

  datatype Cipher = Cipher(text: Bytes, nonce: Bytes, tag: Bytes)

  datatype Plain = Plain(bytes: Bytes) | TagMismatch | Overflow

  ghost predicate IsHmac(hmac: Hmac) {
    forall k, m :: |hmac(k, m)| == 32
  }

  const ENC_LABEL: Bytes := [0x65, 0x6e, 0x63, 0x2d, 0x6b, 0x65, 0x79]
  const AUTH_LABEL: Bytes := [0x61, 0x75, 0x74, 0x68, 0x2d, 0x6b, 0x65, 0x79]

  /** The counter is four bytes wide; a longer text raises OverflowError. */
  const COUNTERS: nat := 0x1_0000_0000
  const MAX_TEXT: nat := 32 * COUNTERS

  function LowByte(n: nat): bv8 { (n % 0x100) as bv8 }

  function BigEndian(counter: nat): Bytes {
    [LowByte(counter / 0x100_0000), LowByte(counter / 0x1_0000), LowByte(counter / 0x100), LowByte(counter)]
  }

  /** The first `blocks` blocks of the key stream. */
  function Stream(hmac: Hmac, key: Bytes, blocks: nat): Bytes {
    if blocks == 0 then [] else Stream(hmac, key, blocks - 1) + hmac(key, BigEndian(blocks - 1))
  }

  lemma {:induction false} StreamLength(hmac: Hmac, key: Bytes, blocks: nat)
    requires IsHmac(hmac)
    ensures |Stream(hmac, key, blocks)| == 32 * blocks
  {
    if blocks > 0 { StreamLength(hmac, key, blocks - 1); }
  }

  /** Four bytes, the most significant first. */
  predicate IsCounter(b: Bytes, n: nat) {
    b == [(n / 16777216 % 256) as bv8, (n / 65536 % 256) as bv8, (n / 256 % 256) as bv8, (n % 256) as bv8]
  }

  lemma CounterIs(b: Bytes, n: nat)
    ensures IsCounter(b, n) <==> b == BigEndian(n)
  {
  }

  /** Fewer blocks are a prefix of more. */
  lemma {:induction false} StreamPrefix(hmac: Hmac, key: Bytes, q: nat, blocks: nat)
    requires IsHmac(hmac) && q <= blocks
    ensures |Stream(hmac, key, q)| == 32 * q && Stream(hmac, key, q) <= Stream(hmac, key, blocks)
  {
    StreamLength(hmac, key, q);
    if q < blocks { StreamPrefix(hmac, key, q, blocks - 1); }
  }

  /** Byte `r` of block `q` of the key stream is byte `r` of the HMAC of the counter `q`. */
  lemma StreamByte(hmac: Hmac, key: Bytes, blocks: nat, q: nat, r: nat)
    requires IsHmac(hmac) && q < blocks && r < 32
    ensures |Stream(hmac, key, blocks)| == 32 * blocks
    ensures Stream(hmac, key, blocks)[32 * q + r] == hmac(key, BigEndian(q))[r]
  {
    StreamPrefix(hmac, key, blocks, blocks);
    StreamPrefix(hmac, key, q, q);
    StreamPrefix(hmac, key, q + 1, blocks);
    var block := hmac(key, BigEndian(q));
    assert Stream(hmac, key, q + 1) == Stream(hmac, key, q) + block;
    assert Stream(hmac, key, blocks)[32 * q + r] == Stream(hmac, key, q + 1)[32 * q + r];
  }

  /** The key of the stream is the HMAC of "enc-key" and the nonce. */
  predicate IsEncKey(hmac: Hmac, master: Bytes, nonce: Bytes, key: Bytes) {
    key == hmac(master, [0x65, 0x6e, 0x63, 0x2d, 0x6b, 0x65, 0x79] + nonce)
  }

  /** The key of the tag is the HMAC of "auth-key" and the nonce. */
  predicate IsAuthKey(hmac: Hmac, master: Bytes, nonce: Bytes, key: Bytes) {
    key == hmac(master, [0x61, 0x75, 0x74, 0x68, 0x2d, 0x6b, 0x65, 0x79] + nonce)
  }

  /** `out` is `in_` under the bytes of HMAC in counter mode, keyed by the master key, the label and the nonce. */
  ghost predicate Masked(hmac: Hmac, master: Bytes, nonce: Bytes, in_: Bytes, out: Bytes) {
    && IsHmac(hmac) && |out| == |in_|
    && forall i, b, key | 0 <= i < |in_| && IsCounter(b, i / 32) && IsEncKey(hmac, master, nonce, key) ::
         out[i] == in_[i] ^ hmac(key, b)[i % 32]
  }

  /** The first 16 bytes of an HMAC over nonce and text, under a key of its own. */
  ghost predicate Tagged(hmac: Hmac, master: Bytes, c: Cipher) {
    IsHmac(hmac) && exists key | IsAuthKey(hmac, master, c.nonce, key) :: c.tag == hmac(key, c.nonce + c.text)[..16]
  }

  lemma XorMasks(hmac: Hmac, master: Bytes, nonce: Bytes, a: Bytes)
    requires IsHmac(hmac) && |a| <= MAX_TEXT
    ensures |a| <= |Mask(hmac, master, nonce, |a|)|
    ensures Masked(hmac, master, nonce, a, Xor(a, Mask(hmac, master, nonce, |a|)))
  {
    MaskLongEnough(hmac, master, nonce, |a|);
    BlocksBound(|a|, COUNTERS);
    var key := hmac(master, ENC_LABEL + nonce);
    forall i, b | 0 <= i < |a| && IsCounter(b, i / 32)
      ensures Mask(hmac, master, nonce, |a|)[i] == hmac(key, b)[i % 32]
    {
      StreamByte(hmac, key, Blocks(|a|), i / 32, i % 32);
      CounterIs(b, i / 32);
    }
  }

  /** What encryption and decryption compute, and which ciphers decryption refuses. */
  lemma CipherMeans(hmac: Hmac, master: Bytes, nonce: Bytes, raw: Bytes, c: Cipher)
    requires IsHmac(hmac) && |raw| <= 0x20_0000_0000
    ensures |raw| <= |Mask(hmac, master, nonce, |raw|)|
    ensures var e := Encrypted(hmac, master, nonce, raw);
      e.nonce == nonce && Masked(hmac, master, nonce, raw, e.text) && Tagged(hmac, master, e)
    ensures |c.text| <= |Mask(hmac, master, c.nonce, |c.text|)|
    ensures var p := Decrypted(hmac, master, c);
      && (p == TagMismatch <==> !Tagged(hmac, master, c))
      && (p == Overflow <==> Tagged(hmac, master, c) && |c.text| > 0x20_0000_0000)
      && (p.Plain? ==> Masked(hmac, master, c.nonce, c.text, p.bytes))
  {
    XorMasks(hmac, master, nonce, raw);
    MaskLongEnough(hmac, master, c.nonce, |c.text|);
    if |c.text| <= MAX_TEXT { XorMasks(hmac, master, c.nonce, c.text); }
  }

  function Xor(a: Bytes, b: Bytes): Bytes
    requires |a| <= |b|
  {
    seq(|a|, i requires 0 <= i < |a| => a[i] ^ b[i])
  }

  lemma XorTwice(a: Bytes, b: Bytes)
    requires |a| <= |b|
    ensures Xor(Xor(a, b), b) == a
  {
  }

  function Blocks(n: nat): nat { (n + 31) / 32 }

  /** `counter` blocks are too few exactly below Blocks(n), and the counter range covers MAX_TEXT. */
  lemma BlocksBound(n: nat, counter: nat)
    ensures 32 * counter < n <==> counter < Blocks(n)
    ensures n <= MAX_TEXT <==> Blocks(n) <= COUNTERS
  {
  }

  function Tag(hmac: Hmac, master: Bytes, nonce: Bytes, text: Bytes): Bytes {
    var t := hmac(hmac(master, AUTH_LABEL + nonce), nonce + text);
    if |t| >= 16 then t[..16] else t
  }

  function Mask(hmac: Hmac, master: Bytes, nonce: Bytes, n: nat): Bytes {
    Stream(hmac, hmac(master, ENC_LABEL + nonce), Blocks(n))
  }

  function Encrypted(hmac: Hmac, master: Bytes, nonce: Bytes, raw: Bytes): Cipher
    requires |raw| <= |Mask(hmac, master, nonce, |raw|)|
  {
    var text := Xor(raw, Mask(hmac, master, nonce, |raw|));
    Cipher(text, nonce, Tag(hmac, master, nonce, text))
  }

  function Decrypted(hmac: Hmac, master: Bytes, c: Cipher): Plain
    requires |c.text| <= |Mask(hmac, master, c.nonce, |c.text|)|
  {
    if c.tag != Tag(hmac, master, c.nonce, c.text) then TagMismatch
    else if |c.text| > MAX_TEXT then Overflow
    else Plain(Xor(c.text, Mask(hmac, master, c.nonce, |c.text|)))
  }

  lemma MaskLongEnough(hmac: Hmac, master: Bytes, nonce: Bytes, n: nat)
    requires IsHmac(hmac)
    ensures n <= |Mask(hmac, master, nonce, n)|
  {
    StreamLength(hmac, hmac(master, ENC_LABEL + nonce), Blocks(n));
  }

  /** Decryption inverts encryption for every text within the counter range, key and nonce. */
  lemma RoundTrip(hmac: Hmac, master: Bytes, nonce: Bytes, raw: Bytes)
    requires IsHmac(hmac) && |raw| <= MAX_TEXT
    ensures |raw| <= |Mask(hmac, master, nonce, |raw|)|
    ensures Decrypted(hmac, master, Encrypted(hmac, master, nonce, raw)) == Plain(raw)
  {
    MaskLongEnough(hmac, master, nonce, |raw|);
    XorTwice(raw, Mask(hmac, master, nonce, |raw|));
  }

  // ---------------------------------------------------------------- the vault's histories

  datatype Op = StoreOp(key: string, value: Bytes) | RetrieveOp(key: string) | HasOp(key: string) | PurgeOp | TouchOp

  datatype Answer = Done | Value(found: Option<Bytes>) | Present(yes: bool) | Refused | TooLong

  /** What the vault means to its users. */
  datatype Meaning = Meaning(purged: bool, contents: map<string, Bytes>)

  predicate Expired(ttl: real, created: real, now: real) { now - created > ttl }

  function Perform(ttl: real, created: real, v: Meaning, op: Op, now: real): (Meaning, Answer) {
    match op
    case PurgeOp => (Meaning(true, map[]), Done)
    case TouchOp => (v, Done)
    case _ =>
      if v.purged then (v, Refused)
      else if Expired(ttl, created, now) then (Meaning(true, map[]), Refused)
      else
        match op
        case StoreOp(k, value) =>
          if |value| > MAX_TEXT then (v, TooLong) else (v.(contents := v.contents[k := value]), Done)
        case RetrieveOp(k) => (v, Value(if k in v.contents then Some(v.contents[k]) else None))
        case HasOp(k) => (v, Present(k in v.contents))
        case _ => (v, Done)
  }

  datatype Event = Event(op: Op, now: real)

  const NEW := Meaning(false, map[])

  function After(ttl: real, created: real, history: seq<Event>): Meaning {
    if history == [] then NEW
    else
      var e := history[|history| - 1];
      Perform(ttl, created, After(ttl, created, history[..|history| - 1]), e.op, e.now).0
  }

  /** The value of the latest store under a key, read off the history alone. */
  function LastStored(history: seq<Event>, key: string): Option<Bytes> {
    if history == [] then None
    else
      match history[|history| - 1].op
      case StoreOp(k, value) =>
        if k == key && |value| <= MAX_TEXT then Some(value) else LastStored(history[..|history| - 1], key)
      case _ => LastStored(history[..|history| - 1], key)
  }

  /** A purge, explicit or by expiry, is for good: the store stays empty and every access is refused. */
  lemma {:induction false} PurgedForever(ttl: real, created: real, history: seq<Event>, i: nat)
    requires i <= |history| && After(ttl, created, history[..i]).purged
    ensures After(ttl, created, history) == Meaning(true, map[])
    ensures forall e: Event | !e.op.PurgeOp? && !e.op.TouchOp? ::
              Perform(ttl, created, After(ttl, created, history), e.op, e.now).1 == Refused
    decreases |history|
  {
    PurgedIsEmpty(ttl, created, history[..i]);
    if i == |history| {
      assert history[..i] == history;
    } else {
      assert history[..|history| - 1][..i] == history[..i];
      PurgedForever(ttl, created, history[..|history| - 1], i);
    }
  }

  /** The vault has been purged exactly if it was asked to, or someone came for a secret after its time. */
  lemma {:induction false} PurgedExactly(ttl: real, created: real, history: seq<Event>)
    ensures After(ttl, created, history).purged <==>
              exists e | e in history :: e.op.PurgeOp? || (!e.op.TouchOp? && e.now - created > ttl)
  {
    if history != [] {
      var prefix, last := history[..|history| - 1], history[|history| - 1];
      PurgedExactly(ttl, created, prefix);
      assert forall e :: e in history <==> e in prefix || e == last;
    }
  }

  lemma {:induction false} PurgedIsEmpty(ttl: real, created: real, history: seq<Event>)
    ensures After(ttl, created, history).purged ==> After(ttl, created, history).contents == map[]
  {
    if history != [] { PurgedIsEmpty(ttl, created, history[..|history| - 1]); }
  }

  /** While the vault lives, a retrieve answers with the latest value stored under the key. */
  lemma {:induction false} RetrievesLastStored(ttl: real, created: real, history: seq<Event>, key: string, now: real)
    requires !After(ttl, created, history).purged
    ensures var v := After(ttl, created, history);
      && Perform(ttl, created, v, HasOp(key), now).1 ==
         (if now - created > ttl then Refused else Present(LastStored(history, key).Some?))
      && (key in v.contents <==> LastStored(history, key).Some?)
      && (key in v.contents ==> v.contents[key] == LastStored(history, key).value)
      && Perform(ttl, created, v, RetrieveOp(key), now).1 ==
         if now - created > ttl then Refused else Value(LastStored(history, key))
    decreases |history|
  {
    if history != [] {
      var prefix := history[..|history| - 1];
      if After(ttl, created, prefix).purged {
        PurgedForever(ttl, created, history, |history| - 1);
        assert false;
      }
      RetrievesLastStored(ttl, created, prefix, key, now);
    }
  }

  // ---------------------------------------------------------------- the object

  class EphemeralVault {
    const hmac: Hmac
    const ttl: real
    const created: real
    const masterKey: array<bv8>
    var lastAccessed: real
    var purged: bool
    var store: map<string, Cipher>
    ghost var contents: map<string, Bytes>

    ghost predicate Readable(c: Cipher, value: Bytes)
      reads masterKey
    {
      |c.text| <= |Mask(hmac, masterKey[..], c.nonce, |c.text|)| && Decrypted(hmac, masterKey[..], c) == Plain(value)
    }

    ghost predicate Valid()
      reads this, masterKey
    {
      && IsHmac(hmac)
      && (purged ==> store == map[] && forall i | 0 <= i < masterKey.Length :: masterKey[i] == 0)
      && store.Keys == contents.Keys
      && forall k | k in store :: Readable(store[k], contents[k])
    }

    ghost function M(): Meaning reads this { Meaning(purged, contents) }

    constructor (hmac: Hmac, ttl: real, now: real, key: array<bv8>)
      requires IsHmac(hmac) && key.Length == 32
      ensures Valid() && M() == NEW && this.ttl == ttl && this.created == now && this.masterKey == key
    {
      this.hmac, this.ttl, this.created, this.masterKey := hmac, ttl, now, key;
      lastAccessed, purged := now, false;
      store, contents := map[], map[];
    }

    method Touch(now: real)
      requires Valid()
      modifies this`lastAccessed
      ensures Valid() && M() == Perform(ttl, created, old(M()), TouchOp, now).0
      ensures lastAccessed == if purged then old(lastAccessed) else now
    {
      if !purged { lastAccessed := now; }
    }

    /** Zeroes the key in place and drops every secret. */
    method Purge()
      requires Valid()
      modifies this, masterKey
      ensures Valid() && M() == Meaning(true, map[])
      ensures forall i | 0 <= i < masterKey.Length :: masterKey[i] == 0
    {
      if purged {
        assert contents == map[];
        return;
      }
      var i := 0;
      while i < masterKey.Length
        invariant i <= masterKey.Length && forall j | 0 <= j < i :: masterKey[j] == 0
        modifies masterKey
      {
        masterKey[i] := 0;
        i := i + 1;
      }
      store, contents := map[], map[];
      purged := true;
    }

    /** _check_ttl: false stands for the exception. */
    method CheckTtl(now: real) returns (ok: bool)
      requires Valid()
      modifies this, masterKey
      ensures Valid() && ok == !(old(purged) || Expired(ttl, created, now))
      ensures ok ==> M() == old(M()) && store == old(store) && masterKey[..] == old(masterKey[..]) && lastAccessed == now
      ensures !ok ==> M() == if old(purged) then old(M()) else Meaning(true, map[])
    {
      if purged { return false; }
      if now - created > ttl {
        Purge();
        return false;
      }
      lastAccessed := now;
      return true;
    }

    /** The counter loop of both directions: None stands for the overflow of the counter. */
    method KeyStream(key: Bytes, n: nat) returns (stream: Option<Bytes>)
      requires IsHmac(hmac)
      ensures stream == if n <= MAX_TEXT then Some(Stream(hmac, key, Blocks(n))) else None
    {
      var bytes: Bytes := [];
      var counter := 0;
      StreamLength(hmac, key, 0);
      while |bytes| < n
        invariant counter <= COUNTERS && bytes == Stream(hmac, key, counter) && |bytes| == 32 * counter
        invariant counter <= Blocks(n)
        decreases Blocks(n) - counter
      {
        BlocksBound(n, counter);
        if counter >= COUNTERS { return None; }
        bytes := NextBlock(key, bytes, counter);
        counter := counter + 1;
      }
      BlocksBound(n, counter);
      return Some(bytes);
    }

    /** One turn of the counter loop. */
    method NextBlock(key: Bytes, bytes: Bytes, counter: nat) returns (more: Bytes)
      requires IsHmac(hmac) && bytes == Stream(hmac, key, counter)
      ensures more == Stream(hmac, key, counter + 1) && |more| == 32 * (counter + 1)
    {
      StreamLength(hmac, key, counter + 1);
      more := bytes + hmac(key, BigEndian(counter));
    }

    method Encrypt(raw: Bytes, nonce: Bytes) returns (c: Option<Cipher>)
      requires IsHmac(hmac)
      ensures |raw| <= |Mask(hmac, masterKey[..], nonce, |raw|)|
      ensures c == if |raw| <= MAX_TEXT then Some(Encrypted(hmac, masterKey[..], nonce, raw)) else None
      ensures c.None? <==> |raw| > 0x20_0000_0000
      ensures c.Some? ==>
                && c.value.nonce == nonce && Masked(hmac, masterKey[..], nonce, raw, c.value.text)
                && Tagged(hmac, masterKey[..], c.value)
    {
      if |raw| <= MAX_TEXT { CipherMeans(hmac, masterKey[..], nonce, raw, Cipher([], [], [])); }
      MaskLongEnough(hmac, masterKey[..], nonce, |raw|);
      var encKey := hmac(masterKey[..], ENC_LABEL + nonce);
      var authKey := hmac(masterKey[..], AUTH_LABEL + nonce);
      var stream := KeyStream(encKey, |raw|);
      if stream.None? { return None; }
      var text := Xor(raw, stream.value);
      var tag := hmac(authKey, nonce + text);
      return Some(Cipher(text, nonce, tag[..16]));
    }

    method Decrypt(c: Cipher) returns (p: Plain)
      requires IsHmac(hmac)
      ensures |c.text| <= |Mask(hmac, masterKey[..], c.nonce, |c.text|)|
      ensures p == Decrypted(hmac, masterKey[..], c)
      ensures p == TagMismatch <==> !Tagged(hmac, masterKey[..], c)
      ensures p == Overflow <==> Tagged(hmac, masterKey[..], c) && |c.text| > 0x20_0000_0000
      ensures p.Plain? ==> Masked(hmac, masterKey[..], c.nonce, c.text, p.bytes)
    {
      CipherMeans(hmac, masterKey[..], [], [], c);
      MaskLongEnough(hmac, masterKey[..], c.nonce, |c.text|);
      var authKey := hmac(masterKey[..], AUTH_LABEL + c.nonce);
      var expected := hmac(authKey, c.nonce + c.text)[..16];
      if c.tag != expected { return TagMismatch; }
      var encKey := hmac(masterKey[..], ENC_LABEL + c.nonce);
      var stream := KeyStream(encKey, |c.text|);
      if stream.None? { return Overflow; }
      return Plain(Xor(c.text, stream.value));
    }

    method Store(key: string, value: Bytes, nonce: Bytes, now: real) returns (answer: Answer)
      requires Valid()
      modifies this, masterKey
      ensures Valid() && (M(), answer) == Perform(ttl, created, old(M()), StoreOp(key, value), now)
      ensures answer == if old(purged) || now - created > ttl then Refused
                        else if |value| > 0x20_0000_0000 then TooLong else Done
      ensures answer == Done ==>
                && key in store && Tagged(hmac, masterKey[..], store[key])
                && Masked(hmac, masterKey[..], store[key].nonce, value, store[key].text)
    {
      var ok := CheckTtl(now);
      if !ok { return Refused; }
      var c := Encrypt(value, nonce);
      if c.None? { return TooLong; }
      RoundTrip(hmac, masterKey[..], nonce, value);
      store := store[key := c.value];
      contents := contents[key := value];
      return Done;
    }

    method Retrieve(key: string, now: real) returns (answer: Answer)
      requires Valid()
      modifies this, masterKey
      ensures Valid() && (M(), answer) == Perform(ttl, created, old(M()), RetrieveOp(key), now)
      ensures answer == if old(purged) || now - created > ttl then Refused
                        else Value(if key in old(contents) then Some(old(contents)[key]) else None)
    {
      var ok := CheckTtl(now);
      if !ok { return Refused; }
      if key !in store { return Value(None); }
      var p := Decrypt(store[key]);
      assert Readable(store[key], contents[key]);
      return Value(Some(p.bytes));
    }

    method Has(key: string, now: real) returns (answer: Answer)
      requires Valid()
      modifies this, masterKey
      ensures Valid() && (M(), answer) == Perform(ttl, created, old(M()), HasOp(key), now)
      ensures answer == if old(purged) || now - created > ttl then Refused else Present(key in old(contents))
    {
      var ok := CheckTtl(now);
      if !ok { return Refused; }
      return Present(key in store);
    }
  }
}
