/** The preauthentication hash and the session keys of lib/libsmb2.c, on the client and on the server. */
module Preauth {
  import opened Numbers
  import opened Sequences
  import opened Hashing
  import opened Hmac

  const KEY_SIZE := 16
  const HASH_SIZE := 64

  const VERSION_0202 := 0x0202
  const VERSION_0210 := 0x0210
  const VERSION_0300 := 0x0300
  const VERSION_0302 := 0x0302

  /** SHA-256 and SHA-512, as far as this file knows them. */
  datatype Suite = Suite(sha256: Hash, sha512: Hash)

  ghost predicate SoundSuite(suite: Suite) {
    Sound(suite.sha256) && Sound(suite.sha512) && suite.sha256.hashSize == 32 && suite.sha512.hashSize == HASH_SIZE
  }

  // ----- The derivation of section 3.1.4.2 of MS-SMB2 -----

  // The labels and contexts, each a C string with its NUL.

  const SMB2AESCMAC: seq<bv8> := [0x53, 0x4d, 0x42, 0x32, 0x41, 0x45, 0x53, 0x43, 0x4d, 0x41, 0x43, 0]
  const SMB_SIGN: seq<bv8> := [0x53, 0x6d, 0x62, 0x53, 0x69, 0x67, 0x6e, 0]
  const SMB2AESCCM: seq<bv8> := [0x53, 0x4d, 0x42, 0x32, 0x41, 0x45, 0x53, 0x43, 0x43, 0x4d, 0]
  const SERVER_IN: seq<bv8> := [0x53, 0x65, 0x72, 0x76, 0x65, 0x72, 0x49, 0x6e, 0x20, 0]
  const SERVER_OUT: seq<bv8> := [0x53, 0x65, 0x72, 0x76, 0x65, 0x72, 0x4f, 0x75, 0x74, 0]
  const SMB_SIGNING_KEY: seq<bv8> := [0x53, 0x4d, 0x42, 0x53, 0x69, 0x67, 0x6e, 0x69, 0x6e, 0x67, 0x4b, 0x65, 0x79, 0]
  const SMBC2S_CIPHER_KEY: seq<bv8> :=
    [0x53, 0x4d, 0x42, 0x43, 0x32, 0x53, 0x43, 0x69, 0x70, 0x68, 0x65, 0x72, 0x4b, 0x65, 0x79, 0]
  const SMBS2C_CIPHER_KEY: seq<bv8> :=
    [0x53, 0x4d, 0x42, 0x53, 0x32, 0x43, 0x43, 0x69, 0x70, 0x68, 0x65, 0x72, 0x4b, 0x65, 0x79, 0]

  /** The first octets of the session key, with zeros up to the size of a key. */
  function InputKey(key: seq<bv8>): (r: seq<bv8>)
    ensures |r| == KEY_SIZE
  {
    key[..Min(KEY_SIZE, |key|)] + Repeat(0, KEY_SIZE - Min(KEY_SIZE, |key|))
  }

  /** The counter-mode function with counter 1 and a result of 128 bits. */
  function Derived(sha256: Hash, key: seq<bv8>, purpose: seq<bv8>, context: seq<bv8>): seq<bv8>
    requires Sound(sha256) && sha256.hashSize >= KEY_SIZE
  {
    Mac(sha256, InputKey(key), [0, 0, 0, 1] + purpose + [0] + context + [0, 0, 0, 128])[..KEY_SIZE]
  }

  datatype Keys = Keys(signing: seq<bv8>, serverIn: seq<bv8>, serverOut: seq<bv8>)

  /** The keys of a session; up to 2.1 only the front of the signing key is set, from the session key itself. */
  function SessionKeys(suite: Suite, dialect: nat, key: seq<bv8>, preauth: seq<bv8>, before: Keys): (after: Keys)
    requires SoundSuite(suite) && |before.signing| == KEY_SIZE
    ensures |after.signing| == KEY_SIZE
  {
    var n := Min(|key|, KEY_SIZE);
    if dialect == VERSION_0202 || dialect == VERSION_0210 then
      before.(signing := key[..n] + before.signing[n..])
    else if dialect <= VERSION_0302 then
      Keys(Derived(suite.sha256, key, SMB2AESCMAC, SMB_SIGN),
           Derived(suite.sha256, key, SMB2AESCCM, SERVER_IN),
           Derived(suite.sha256, key, SMB2AESCCM, SERVER_OUT))
    else
      Keys(Derived(suite.sha256, key, SMB_SIGNING_KEY, preauth),
           Derived(suite.sha256, key, SMBC2S_CIPHER_KEY, preauth),
           Derived(suite.sha256, key, SMBS2C_CIPHER_KEY, preauth))
  }

  /** Section 3.1.4.4.1: the hash chained over whole messages, from zeros. */
  function PreauthHash(sha512: Hash, messages: seq<seq<bv8>>): seq<bv8> {
    if messages == [] then Repeat(0, HASH_SIZE)
    else sha512.digest(PreauthHash(sha512, messages[..|messages| - 1]) + messages[|messages| - 1])
  }

  /** The keys of two sides depend on nothing but the dialect, the session key and, from 3.1.1 on, the hash. */
  lemma KeysAgree(suite: Suite, dialect: nat, key: seq<bv8>, preauth: seq<bv8>, one: Keys, other: Keys)
    requires SoundSuite(suite) && |one.signing| == KEY_SIZE && |other.signing| == KEY_SIZE
    ensures var a := SessionKeys(suite, dialect, key, preauth, one);
      var b := SessionKeys(suite, dialect, key, preauth, other);
      if dialect == VERSION_0202 || dialect == VERSION_0210
      then a.signing == b.signing <==> |key| >= KEY_SIZE || one.signing[|key|..] == other.signing[|key|..]
      else a == b
  {
    hide Derived;
    if (dialect == VERSION_0202 || dialect == VERSION_0210) && |key| < KEY_SIZE {
      var a := SessionKeys(suite, dialect, key, preauth, one).signing;
      var b := SessionKeys(suite, dialect, key, preauth, other).signing;
      assert a[|key|..] == one.signing[|key|..] && b[|key|..] == other.signing[|key|..];
    }
  }

  // ----- The octets that go into each key -----

  // Counter, label with its NUL, separator, context with its NUL, and the length of a key in bits.

  const SIGNING_30: seq<bv8> :=
    [0, 0, 0, 1, 0x53, 0x4d, 0x42, 0x32, 0x41, 0x45, 0x53, 0x43, 0x4d, 0x41, 0x43, 0,
     0, 0x53, 0x6d, 0x62, 0x53, 0x69, 0x67, 0x6e, 0, 0, 0, 0, 128]

  const CIPHER_IN_30: seq<bv8> :=
    [0, 0, 0, 1, 0x53, 0x4d, 0x42, 0x32, 0x41, 0x45, 0x53, 0x43, 0x43, 0x4d, 0,
     0, 0x53, 0x65, 0x72, 0x76, 0x65, 0x72, 0x49, 0x6e, 0x20, 0, 0, 0, 0, 128]

  const CIPHER_OUT_30: seq<bv8> :=
    [0, 0, 0, 1, 0x53, 0x4d, 0x42, 0x32, 0x41, 0x45, 0x53, 0x43, 0x43, 0x4d, 0,
     0, 0x53, 0x65, 0x72, 0x76, 0x65, 0x72, 0x4f, 0x75, 0x74, 0, 0, 0, 0, 128]

  // From 3.1.1 on the context is the hash, which comes between these and the length.

  const SIGNING_311: seq<bv8> :=
    [0, 0, 0, 1, 0x53, 0x4d, 0x42, 0x53, 0x69, 0x67, 0x6e, 0x69, 0x6e, 0x67, 0x4b, 0x65, 0x79, 0,
     0]

  const CIPHER_IN_311: seq<bv8> :=
    [0, 0, 0, 1, 0x53, 0x4d, 0x42, 0x43, 0x32, 0x53, 0x43, 0x69, 0x70, 0x68, 0x65, 0x72, 0x4b, 0x65, 0x79, 0,
     0]

  const CIPHER_OUT_311: seq<bv8> :=
    [0, 0, 0, 1, 0x53, 0x4d, 0x42, 0x53, 0x32, 0x43, 0x43, 0x69, 0x70, 0x68, 0x65, 0x72, 0x4b, 0x65, 0x79, 0,
     0]

  const KEY_BITS: seq<bv8> := [0, 0, 0, 128]

  /** The front of the code over these octets, under the session key cut or filled with zeros to sixteen octets. */
  ghost predicate IsDerived(suite: Suite, derived: seq<bv8>, key: seq<bv8>, octets: seq<bv8>)
    requires SoundSuite(suite)
  {
    exists k: seq<bv8> ::
      && |k| == 16 && (forall i :: 0 <= i < 16 ==> k[i] == if i < |key| then key[i] else 0)
      && derived == Mac(suite.sha256, k, octets)[..16]
  }

  /** 3.0 and 3.0.2: labels alone make the keys. */
  ghost predicate KeysOf30(suite: Suite, keys: Keys, key: seq<bv8>)
    requires SoundSuite(suite)
  {
    && IsDerived(suite, keys.signing, key, SIGNING_30)
    && IsDerived(suite, keys.serverIn, key, CIPHER_IN_30)
    && IsDerived(suite, keys.serverOut, key, CIPHER_OUT_30)
  }

  /** 3.1.1: other labels, and the hash. */
  ghost predicate KeysOf311(suite: Suite, keys: Keys, key: seq<bv8>, preauth: seq<bv8>)
    requires SoundSuite(suite)
  {
    && IsDerived(suite, keys.signing, key, SIGNING_311 + preauth + KEY_BITS)
    && IsDerived(suite, keys.serverIn, key, CIPHER_IN_311 + preauth + KEY_BITS)
    && IsDerived(suite, keys.serverOut, key, CIPHER_OUT_311 + preauth + KEY_BITS)
  }

  /** 2.0.2 and 2.1: the session key is the signing key, and nothing else is set. */
  ghost predicate KeysOf21(keys: Keys, key: seq<bv8>, before: Keys) {
    && |keys.signing| == |before.signing| == 16
    && (forall i :: 0 <= i < 16 ==> keys.signing[i] == if i < |key| then key[i] else before.signing[i])
    && keys.serverIn == before.serverIn && keys.serverOut == before.serverOut
  }

  /** Which keys belong to which dialect. */
  lemma KeysByDialect(suite: Suite, dialect: nat, key: seq<bv8>, preauth: seq<bv8>, before: Keys)
    requires SoundSuite(suite) && |before.signing| == KEY_SIZE
    ensures var keys := SessionKeys(suite, dialect, key, preauth, before);
      && (dialect in {0x0202, 0x0210} ==> KeysOf21(keys, key, before))
      && (dialect in {0x0300, 0x0302} ==> KeysOf30(suite, keys, key))
      && (dialect == 0x0311 ==> KeysOf311(suite, keys, key, preauth))
  {
    hide Derived, IsDerived, SIGNING_30, CIPHER_IN_30, CIPHER_OUT_30, SIGNING_311, CIPHER_IN_311, CIPHER_OUT_311;
    hide SMB2AESCMAC, SMB_SIGN, SMB2AESCCM, SERVER_IN, SERVER_OUT;
    hide SMB_SIGNING_KEY, SMBC2S_CIPHER_KEY, SMBS2C_CIPHER_KEY;
    Signing30Octets();
    CipherIn30Octets();
    CipherOut30Octets();
    Signing311Octets();
    CipherIn311Octets();
    CipherOut311Octets();
    if dialect in {0x0300, 0x0302} {
      DerivedFrom(suite, key, SMB2AESCMAC, SMB_SIGN, SIGNING_30);
      DerivedFrom(suite, key, SMB2AESCCM, SERVER_IN, CIPHER_IN_30);
      DerivedFrom(suite, key, SMB2AESCCM, SERVER_OUT, CIPHER_OUT_30);
    }
    if dialect == 0x0311 {
      DerivedFrom(suite, key, SMB_SIGNING_KEY, preauth, SIGNING_311 + preauth + KEY_BITS);
      DerivedFrom(suite, key, SMBC2S_CIPHER_KEY, preauth, CIPHER_IN_311 + preauth + KEY_BITS);
      DerivedFrom(suite, key, SMBS2C_CIPHER_KEY, preauth, CIPHER_OUT_311 + preauth + KEY_BITS);
    }
  }

  lemma DerivedFrom(suite: Suite, key: seq<bv8>, purpose: seq<bv8>, context: seq<bv8>, octets: seq<bv8>)
    requires SoundSuite(suite) && octets == [0, 0, 0, 1] + purpose + [0] + context + [0, 0, 0, 128]
    ensures IsDerived(suite, Derived(suite.sha256, key, purpose, context), key, octets)
  {
    hide Mac, Sound;
    var k := InputKey(key);
    assert forall i :: 0 <= i < 16 ==> k[i] == if i < |key| then key[i] else 0;
  }

  lemma Signing30Octets()
    ensures SIGNING_30 == [0, 0, 0, 1] + SMB2AESCMAC + [0] + SMB_SIGN + [0, 0, 0, 128]
  {
  }

  lemma CipherIn30Octets()
    ensures CIPHER_IN_30 == [0, 0, 0, 1] + SMB2AESCCM + [0] + SERVER_IN + [0, 0, 0, 128]
  {
  }

  lemma CipherOut30Octets()
    ensures CIPHER_OUT_30 == [0, 0, 0, 1] + SMB2AESCCM + [0] + SERVER_OUT + [0, 0, 0, 128]
  {
  }

  lemma Signing311Octets()
    ensures SIGNING_311 == [0, 0, 0, 1] + SMB_SIGNING_KEY + [0]
  {
  }

  lemma CipherIn311Octets()
    ensures CIPHER_IN_311 == [0, 0, 0, 1] + SMBC2S_CIPHER_KEY + [0]
  {
  }

  lemma CipherOut311Octets()
    ensures CIPHER_OUT_311 == [0, 0, 0, 1] + SMBS2C_CIPHER_KEY + [0]
  {
  }

  /** The keys of 3.0.2 are those of 3.0, whatever was sent and whatever the keys were before. */
  lemma SameKeysOn302(suite: Suite, key: seq<bv8>, preauth: seq<bv8>, before: Keys, preauth1: seq<bv8>, before1: Keys)
    requires SoundSuite(suite) && |before.signing| == |before1.signing| == KEY_SIZE
    ensures SessionKeys(suite, 0x0302, key, preauth, before) == SessionKeys(suite, 0x0300, key, preauth1, before1)
  {
    hide Derived;
  }

  /** The hash after a handshake of one round, in full. */
  lemma HashOfFive(sha512: Hash, a: seq<bv8>, b: seq<bv8>, c: seq<bv8>, d: seq<bv8>, e: seq<bv8>)
    ensures var h := sha512.digest;
      PreauthHash(sha512, [a, b, c, d, e]) == h(h(h(h(h(seq(64, _ => 0) + a) + b) + c) + d) + e)
  {
    assert [a, b, c, d, e][..4] == [a, b, c, d] && [a, b, c, d][..3] == [a, b, c];
    assert [a, b, c][..2] == [a, b] && [a, b][..1] == [a] && [a][..0] == [];
    assert Repeat<bv8>(0, 64) == seq(64, _ => 0);
    assert PreauthHash(sha512, []) == Repeat(0, 64);
    assert PreauthHash(sha512, [a]) == sha512.digest(Repeat(0, 64) + a);
    assert PreauthHash(sha512, [a, b]) == sha512.digest(PreauthHash(sha512, [a]) + b);
    assert PreauthHash(sha512, [a, b, c]) == sha512.digest(PreauthHash(sha512, [a, b]) + c);
    assert PreauthHash(sha512, [a, b, c, d]) == sha512.digest(PreauthHash(sha512, [a, b, c]) + d);
  }

  // ----- One side of a connection: the fields of struct smb2_context that the keys depend on -----

  class Peer {
    const suite: Suite
    const preauthHash: array<bv8>
    var dialect: nat
    var sign: bool
    var seal: bool
    var sessionKey: seq<bv8>
    var keys: Keys
    /** The messages hashed since the last reset. */
    ghost var messages: seq<seq<bv8>>

    ghost predicate Valid()
      reads this, preauthHash
    {
      && SoundSuite(suite) && preauthHash.Length == HASH_SIZE && |keys.signing| == KEY_SIZE
      && preauthHash[..] == PreauthHash(suite.sha512, messages)
    }

    constructor (s: Suite, signing: bool, sealing: bool)
      requires SoundSuite(s)
      ensures Valid() && suite == s && sign == signing && seal == sealing && messages == [] && fresh(preauthHash)
    {
      suite, dialect, sign, seal, sessionKey := s, 0, signing, sealing, [];
      keys := Keys(Repeat(0, KEY_SIZE), Repeat(0, KEY_SIZE), Repeat(0, KEY_SIZE));
      preauthHash := new bv8[HASH_SIZE];
      messages := [];
      new;
      InitPreauthHash();
    }

    /** smb3_init_preauth_hash. */
    method InitPreauthHash()
      requires SoundSuite(suite) && preauthHash.Length == HASH_SIZE && |keys.signing| == KEY_SIZE
      modifies `messages, preauthHash
      ensures Valid() && messages == []
    {
      for i := 0 to HASH_SIZE
        invariant preauthHash[..i] == Repeat(0, i)
      {
        preauthHash[i] := 0;
      }
      assert preauthHash[..] == preauthHash[..HASH_SIZE];
      messages := [];
    }

    /** smb3_update_preauth_hash: the message goes in vector by vector, after the old hash and into its place. */
    method UpdatePreauthHash(iov: seq<seq<bv8>>)
      requires Valid()
      modifies `messages, preauthHash
      ensures Valid() && messages == old(messages) + [Joined(iov)]
    {
      hide SoundSuite;
      HashFits(suite);
      var tctx := new Stream(suite.sha512);
      ghost var hash := preauthHash[..];
      tctx.Input(preauthHash[..]);
      assert [] + hash == hash;
      for i := 0 to |iov|
        invariant tctx.hash == suite.sha512 && !tctx.computed && tctx.input == hash + Joined(iov[..i])
        invariant preauthHash[..] == hash && messages == old(messages)
      {
        tctx.Input(iov[i]);
        assert iov[..i + 1][..i] == iov[..i];
        assert hash + Joined(iov[..i]) + iov[i] == hash + Joined(iov[..i + 1]);
      }
      assert iov[..|iov|] == iov;
      tctx.Result(preauthHash);
      assert preauthHash[..HASH_SIZE] == preauthHash[..];
      messages := messages + [Joined(iov)];
      assert messages[..|messages| - 1] == old(messages);
    }

    /** smb2_derive_key. */
    method DeriveKey(key: seq<bv8>, purpose: seq<bv8>, context: seq<bv8>) returns (derived: seq<bv8>)
      requires SoundSuite(suite)
      ensures derived == Derived(suite.sha256, key, purpose, context)
    {
      hide Mac, Sound, InputKey, BlockKey, XorEach;
      var inputKey := InputKey(key);
      var digest := new bv8[HASH_SIZE];
      var ctx := new Context(suite.sha256.blockSize, suite.sha256);
      ctx.Reset(suite.sha256, inputKey);
      ctx.Input([0, 0, 0, 1]);
      ctx.Input(purpose);
      ctx.Input([0]);
      ctx.Input(context);
      ctx.Input([0, 0, 0, 128]);
      assert ctx.text == [0, 0, 0, 1] + purpose + [0] + context + [0, 0, 0, 128];
      ctx.Result(digest);
      derived := digest[..KEY_SIZE];
      assert digest[..32][..KEY_SIZE] == derived;
    }

    /** smb2_create_signing_key. */
    method CreateSigningKey()
      requires Valid()
      modifies `keys
      ensures Valid() && keys == SessionKeys(suite, dialect, sessionKey, preauthHash[..], old(keys))
    {
      hide Derived;
      if dialect == VERSION_0202 || dialect == VERSION_0210 {
        var n := Min(|sessionKey|, KEY_SIZE);
        keys := keys.(signing := sessionKey[..n] + keys.signing[n..]);
      } else if dialect <= VERSION_0302 {
        var a := DeriveKey(sessionKey, SMB2AESCMAC, SMB_SIGN);
        var b := DeriveKey(sessionKey, SMB2AESCCM, SERVER_IN);
        var c := DeriveKey(sessionKey, SMB2AESCCM, SERVER_OUT);
        DerivedSize(suite, sessionKey, SMB2AESCMAC, SMB_SIGN);
        keys := Keys(a, b, c);
      } else {
        var a := DeriveKey(sessionKey, SMB_SIGNING_KEY, preauthHash[..]);
        var b := DeriveKey(sessionKey, SMBC2S_CIPHER_KEY, preauthHash[..]);
        var c := DeriveKey(sessionKey, SMBS2C_CIPHER_KEY, preauthHash[..]);
        DerivedSize(suite, sessionKey, SMB_SIGNING_KEY, preauthHash[..]);
        keys := Keys(a, b, c);
      }
    }

    // ----- The client: connect_cb, negotiate_cb, send_session_setup_request and session_setup_cb -----

    method ClientSendsNegotiate(out: seq<seq<bv8>>)
      requires Valid()
      modifies this, preauthHash
      ensures Valid() && messages == [Joined(out)]
      ensures sign == old(sign) && seal == old(seal) && keys == old(keys)
    {
      InitPreauthHash();
      UpdatePreauthHash(out);
    }

    /** The hash takes in the reply before its status is looked at. */
    method ClientTakesNegotiateReply(input: seq<seq<bv8>>, reply: NegotiateReply) returns (ok: bool)
      requires Valid()
      modifies this, preauthHash
      ensures Valid() && messages == old(messages) + [Joined(input)] && keys == old(keys) && seal == old(seal)
      ensures ok <==> !(seal && dialect in {VERSION_0300, VERSION_0302} && !reply.encryption)
                      && !(old(sign) && !reply.signingEnabled)
      ensures dialect == reply.dialect
      ensures ok ==> sign == (!seal && (old(sign) || reply.signingRequired))
    {
      UpdatePreauthHash(input);
      dialect := reply.dialect;
      if seal && (dialect == VERSION_0300 || dialect == VERSION_0302) && !reply.encryption {
        return false;
      }
      if sign && !reply.signingEnabled {
        return false;
      }
      if reply.signingRequired {
        sign := true;
      }
      if seal {
        sign := false;
      }
      return true;
    }

    method ClientSendsSessionSetup(out: seq<seq<bv8>>)
      requires Valid()
      modifies `messages, preauthHash
      ensures Valid() && messages == old(messages) + [Joined(out)]
    {
      UpdatePreauthHash(out);
    }

    /** SUCCESS: this reply is not hashed. */
    method ClientFinishes(encrypt: bool, key: seq<bv8>) returns (ok: bool)
      requires Valid()
      modifies this
      ensures Valid() && messages == old(messages) && dialect == old(dialect)
      ensures ok <==> !(sign && !UsableKey(key))
      ensures ok && (sign || seal || dialect == 0x0311) ==>
        keys == SessionKeys(suite, dialect, key, preauthHash[..], old(keys))
      ensures (sign || seal) == (old(sign) || old(seal) || encrypt)
    {
      hide SessionKeys, PreauthHash;
      if encrypt {
        seal, sign := true, false;
      }
      if sign || seal || dialect == 0x0311 {
        sessionKey := key;
        if sign && !UsableKey(key) {
          return false;
        }
        CreateSigningKey();
      }
      ok := true;
    }

    // ----- The server: smb2_negotiate_request_cb and smb2_session_setup_request_cb -----

    /** Hash and flags; the dialect has been chosen. Without ok the connection is closed. */
    method ServerNegotiates(input: seq<seq<bv8>>, request: NegotiateRequest, chosen: nat, anonymous: bool,
                            signingEnabled: bool, out: seq<seq<bv8>>) returns (ok: bool)
      requires Valid()
      modifies this, preauthHash
      ensures ok ==> Valid() && dialect == chosen && messages == [Joined(input), Joined(out)] && keys == old(keys)
      ensures seal == old(seal)
      ensures ok && !seal && WillSign(request, chosen, anonymous) ==> sign && signingEnabled
      ensures ok && !seal && !WillSign(request, chosen, anonymous) ==> sign == old(sign)
      ensures ok && seal ==> !sign
      ensures !ok <==> (seal && chosen in {VERSION_0300, VERSION_0302} && !request.encryption)
                       || (!seal && WillSign(request, chosen, anonymous) && !signingEnabled)
    {
      dialect := chosen;
      InitPreauthHash();
      UpdatePreauthHash(input);
      if seal && (dialect == VERSION_0300 || dialect == VERSION_0302) && !request.encryption {
        return false;
      }
      var willSign := request.signingRequired;
      if !anonymous {
        if dialect == VERSION_0210 {
          willSign := true;
        }
        if dialect >= 0x0311 {
          willSign := true;
        }
      }
      if seal {
        sign := false;
      } else if willSign {
        if !signingEnabled {
          return false;
        }
        sign := true;
      }
      UpdatePreauthHash(out);
      ok := true;
    }

    /** One session setup: the request is hashed, then keys are derived if signing, then the reply is hashed. */
    method ServerSetsUp(input: seq<seq<bv8>>, key: seq<bv8>, valid: bool, out: seq<seq<bv8>>) returns (ok: bool)
      requires Valid()
      modifies this, preauthHash
      ensures ok <==> valid || !sign
      ensures ok ==> Valid() && messages == old(messages) + [Joined(input), Joined(out)]
      ensures dialect == old(dialect) && sign == old(sign) && seal == old(seal)
      ensures ok && sign ==>
        keys == SessionKeys(suite, dialect, key, PreauthHash(suite.sha512, old(messages) + [Joined(input)]), old(keys))
      ensures !sign ==> keys == old(keys)
    {
      hide SessionKeys, PreauthHash;
      sessionKey := key;
      UpdatePreauthHash(input);
      if sign && !valid {
        return false;
      }
      if sign {
        CreateSigningKey();
      }
      UpdatePreauthHash(out);
      assert old(messages) + [Joined(input)] + [Joined(out)] == old(messages) + [Joined(input), Joined(out)];
      ok := true;
    }
  }

  datatype NegotiateReply = NegotiateReply(dialect: nat, encryption: bool, signingEnabled: bool, signingRequired: bool)
  datatype NegotiateRequest = NegotiateRequest(encryption: bool, signingRequired: bool)

  predicate WillSign(request: NegotiateRequest, dialect: nat, anonymous: bool) {
    request.signingRequired || (!anonymous && (dialect == VERSION_0210 || dialect >= 0x0311))
  }

  lemma WillSignBy(dialect: nat, anonymous: bool, encryption: bool, required: bool)
    requires dialect in {0x0202, 0x0210, 0x0300, 0x0302, 0x0311}
    ensures WillSign(NegotiateRequest(encryption, required), dialect, anonymous) <==>
      required || (!anonymous && dialect != 0x0202 && dialect != 0x0300 && dialect != 0x0302)
  {
  }

  /** Not absent, and not zeros. */
  predicate UsableKey(key: seq<bv8>) {
    var n := Min(|key|, KEY_SIZE);
    key[..n] != Repeat(0, n)
  }

  lemma UsableKeyIs(key: seq<bv8>)
    ensures UsableKey(key) <==> exists i :: 0 <= i < |key| && i < 16 && key[i] != 0
  {
    var n := Min(|key|, KEY_SIZE);
    if forall i :: 0 <= i < n ==> key[i] == 0 {
      assert key[..n] == Repeat(0, n);
    } else {
      var i :| 0 <= i < n && key[i] != 0;
      assert key[..n][i] != Repeat(0, n)[i];
    }
  }

  lemma HashFits(suite: Suite)
    requires SoundSuite(suite)
    ensures Sound(suite.sha512) && suite.sha512.hashSize == HASH_SIZE
  {
  }

  lemma DerivedSize(suite: Suite, key: seq<bv8>, purpose: seq<bv8>, context: seq<bv8>)
    requires SoundSuite(suite)
    ensures |Derived(suite.sha256, key, purpose, context)| == KEY_SIZE
  {
  }

  // ----- A whole handshake -----

  /** A message as its sender held it in vectors, and as it arrived. */
  datatype Message = Message(sent: seq<seq<bv8>>, received: seq<seq<bv8>>)

  predicate Faithful(m: Message) {
    Joined(m.sent) == Joined(m.received)
  }

  /** A request that the server answers with MORE_PROCESSING_REQUIRED, and the session key it has by then, if any. */
  datatype Round = Round(request: Message, reply: Message, serverKey: seq<bv8>, serverValid: bool)

  function RoundMessages(rounds: seq<Round>): seq<seq<bv8>> {
    if rounds == [] then []
    else RoundMessages(rounds[..|rounds| - 1])
         + [Joined(rounds[|rounds| - 1].request.sent), Joined(rounds[|rounds| - 1].reply.sent)]
  }

  function Opening(negotiate: (Message, Message)): seq<seq<bv8>> {
    [Joined(negotiate.0.sent), Joined(negotiate.1.sent)]
  }

  /** What the keys of 3.1.1 stand for: all messages but the final success reply. */
  function Transcript(negotiate: (Message, Message), rounds: seq<Round>, last: Message): seq<seq<bv8>> {
    Opening(negotiate) + RoundMessages(rounds) + [Joined(last.sent)]
  }

  /** The keys of a signing server after the rounds, in each of which it derives them anew. */
  ghost function KeysThrough(suite: Suite, dialect: nat, start: seq<seq<bv8>>, rounds: seq<Round>, before: Keys)
    : (after: Keys)
    requires SoundSuite(suite) && |before.signing| == KEY_SIZE
    ensures |after.signing| == KEY_SIZE
  {
    if rounds == [] then before
    else
      var earlier, last := rounds[..|rounds| - 1], rounds[|rounds| - 1];
      SessionKeys(suite, dialect, last.serverKey,
                  PreauthHash(suite.sha512, start + RoundMessages(earlier) + [Joined(last.request.sent)]),
                  KeysThrough(suite, dialect, start, earlier, before))
  }

  lemma TranscriptOfOne(negotiate: (Message, Message), round: Round, last: Message)
    ensures Transcript(negotiate, [round], last)
         == [Joined(negotiate.0.sent), Joined(negotiate.1.sent), Joined(round.request.sent), Joined(round.reply.sent),
             Joined(last.sent)]
  {
    hide Joined;
    assert [round][..0] == [];
    assert RoundMessages([]) == [];
    assert RoundMessages([round]) == RoundMessages([]) + [Joined(round.request.sent), Joined(round.reply.sent)];
  }

  method Rounds(client: Peer, server: Peer, rounds: seq<Round>) returns (ok: bool)
    requires client.Valid() && server.Valid() && client != server && client.preauthHash != server.preauthHash
    requires client.messages == server.messages
    requires forall i :: 0 <= i < |rounds| ==> Faithful(rounds[i].request) && Faithful(rounds[i].reply)
    modifies client`messages, client.preauthHash, server, server.preauthHash
    ensures ok ==> (client.Valid() && server.Valid()
      && client.messages == server.messages == old(client.messages) + RoundMessages(rounds))
    ensures server.dialect == old(server.dialect) && server.sign == old(server.sign) && server.seal == old(server.seal)
    ensures (forall i :: 0 <= i < |rounds| ==> rounds[i].serverValid) ==> ok
    ensures SoundSuite(server.suite) && |old(server.keys.signing)| == KEY_SIZE
    ensures ok && server.sign ==>
      server.keys == KeysThrough(server.suite, server.dialect, old(server.messages), rounds, old(server.keys))
    ensures !server.sign ==> server.keys == old(server.keys)
  {
    hide SessionKeys, PreauthHash, SoundSuite, Joined;
    for i := 0 to |rounds|
      invariant client.Valid() && server.Valid()
      invariant client.messages == server.messages == old(client.messages) + RoundMessages(rounds[..i])
      invariant server.dialect == old(server.dialect)
      invariant server.sign == old(server.sign) && server.seal == old(server.seal)
      invariant server.keys ==
        if server.sign
        then KeysThrough(server.suite, server.dialect, old(server.messages), rounds[..i], old(server.keys))
        else old(server.keys)
    {
      client.ClientSendsSessionSetup(rounds[i].request.sent);
      ok := server.ServerSetsUp(rounds[i].request.received, rounds[i].serverKey, rounds[i].serverValid,
                                rounds[i].reply.sent);
      if !ok {
        return;
      }
      client.UpdatePreauthHash(rounds[i].reply.received);
      assert rounds[..i + 1][..i] == rounds[..i];
      assert client.messages == old(client.messages) + RoundMessages(rounds[..i + 1]);
    }
    assert rounds[..|rounds|] == rounds;
    ok := true;
  }

  /** Client and server run the handshake message by message, with any number of rounds before the last. If both get
      through it and the server signs, they hold the same keys; on 2.0.2 and 2.1 with a session key of less than
      sixteen octets they do so exactly if the octets behind were the same. A server that does not sign derives
      nothing. */
  method Handshake(client: Peer, server: Peer, request: NegotiateRequest, chosen: nat, anonymous: bool,
                   signingEnabled: bool, negotiate: (Message, Message), rounds: seq<Round>, last: (Message, Message),
                   encrypt: bool, key: seq<bv8>, encryption: bool) returns (ok: bool)
    requires client.Valid() && server.Valid() && client != server && client.preauthHash != server.preauthHash
    requires client.suite == server.suite
    requires Faithful(negotiate.0) && Faithful(negotiate.1) && Faithful(last.0)
    requires forall i :: 0 <= i < |rounds| ==> Faithful(rounds[i].request) && Faithful(rounds[i].reply)
    modifies client, client.preauthHash, server, server.preauthHash
    ensures SoundSuite(client.suite) && |old(client.keys.signing)| == |old(server.keys.signing)| == KEY_SIZE
    ensures ok ==> client.dialect == server.dialect == chosen
    ensures ok && server.sign && |key| >= KEY_SIZE ==> client.keys.signing == server.keys.signing
    ensures ok && server.sign && chosen != VERSION_0202 && chosen != VERSION_0210 ==> client.keys == server.keys
    ensures ok && server.sign && (chosen == VERSION_0202 || chosen == VERSION_0210) ==>
      (client.keys.signing == server.keys.signing <==>
        |key| >= KEY_SIZE || old(client.keys.signing)[|key|..] ==
          KeysThrough(server.suite, chosen, Opening(negotiate), rounds, old(server.keys)).signing[|key|..])
    ensures ok && server.sign && chosen in {0x0300, 0x0302} ==> KeysOf30(client.suite, client.keys, key)
    ensures ok && server.sign && chosen == 0x0311 ==>
      KeysOf311(client.suite, client.keys, key, PreauthHash(client.suite.sha512, Transcript(negotiate, rounds, last.0)))
    ensures ok && server.sign && chosen in {0x0202, 0x0210} ==> KeysOf21(client.keys, key, old(client.keys))
    ensures ok && !server.sign ==> server.keys == old(server.keys)
    ensures ok && server.seal ==> !server.sign
    ensures ok && server.sign ==>
      client.keys == SessionKeys(client.suite, chosen, key,
                                 PreauthHash(client.suite.sha512, Transcript(negotiate, rounds, last.0)), old(client.keys))
    ensures (old(!client.seal && !client.sign && !server.seal) && signingEnabled && UsableKey(key)
      && (forall i :: 0 <= i < |rounds| ==> rounds[i].serverValid)) ==> ok
  {
    hide SessionKeys, PreauthHash, SoundSuite, UsableKey, Joined, Transcript, WillSign, KeysOf21, KeysOf30, KeysOf311;
    client.ClientSendsNegotiate(negotiate.0.sent);
    ok := server.ServerNegotiates(negotiate.0.received, request, chosen, anonymous, signingEnabled, negotiate.1.sent);
    if !ok {
      return;
    }
    ok := client.ClientTakesNegotiateReply(negotiate.1.received,
      NegotiateReply(chosen, encryption, signingEnabled, server.sign));
    if !ok {
      return;
    }
    ok := Rounds(client, server, rounds);
    if !ok {
      return;
    }
    client.ClientSendsSessionSetup(last.0.sent);
    TranscriptIs(negotiate, rounds, last.0);
    assert client.messages == Transcript(negotiate, rounds, last.0);
    ghost var serverBefore := server.keys;
    ok := server.ServerSetsUp(last.0.received, key, true, last.1.sent);
    ok := client.ClientFinishes(encrypt, key);
    ghost var hash := PreauthHash(client.suite.sha512, client.messages);
    KeysAgree(client.suite, chosen, key, hash, old(client.keys), serverBefore);
    KeysByDialect(client.suite, chosen, key, hash, old(client.keys));
  }

  lemma TranscriptIs(negotiate: (Message, Message), rounds: seq<Round>, last: Message)
    ensures Transcript(negotiate, rounds, last)
         == [Joined(negotiate.0.sent), Joined(negotiate.1.sent)] + RoundMessages(rounds) + [Joined(last.sent)]
  {
  }
}
