/** Logical time and ideal cryptography: a signature verifies exactly when it is the one made
    by that key over that message, and key ids are injective on keys. */
module Crypto {
  import opened Positional
  import Encodings

  type AgentId = seq<byte>  // UTF-8 bytes of the id

  /** The did:key of the key derived from an agent id, or some other did. */
  datatype Did = DidFor(agent: AgentId) | OtherDid(text: seq<byte>)

  datatype Tick = At(t: real) | Infinity {
    predicate AtMost(other: Tick) {
      other.Infinity? || (At? && t <= other.t)
    }

    predicate Before(other: Tick) {
      At? && (other.Infinity? || t < other.t)
    }
  }

  /** A public key is what its bytes are: those of a key derived from a seed, the bytes that a
      signed message covers, or others. */
  datatype PublicKey =
    | DerivedKey(seed: seq<byte>, id: AgentId, count: nat)
    | StampedBytes(payload: seq<byte>, kid: KeyId, tick: Tick)
    | OtherKey(raw: seq<byte>)
  {
    /** The library can use a key only if it has 32 bytes; reading any other raises. */
    predicate Readable() {
      && (OtherKey? ==> |raw| == 32)
      && (StampedBytes? ==> StampedLength(payload, kid, tick) == 32)
    }
  }

  datatype KeyId = IdOf(key: PublicKey) | Unassigned(text: string)

  /** A key id has 16 hex digits. */
  function KeyIdLength(kid: KeyId): nat {
    match kid
    case IdOf(_) => 16
    case Unassigned(text) => |text|
  }

  function TickLength(tick: Tick): nat {
    match tick
    case At(t) => Encodings.PrintedLength(t)
    case Infinity => 3
  }

  /** How many bytes a signed message covers: its three fields and two separators. */
  function StampedLength(payload: seq<byte>, kid: KeyId, tick: Tick): nat {
    |payload| + 1 + KeyIdLength(kid) + 1 + TickLength(tick)
  }

  datatype Message =
    | Stamped(payload: seq<byte>, kid: KeyId, tick: Tick)
    | NewKey(key: PublicKey)

  /** Signatures are over bytes: a new key that consists of the bytes of a signed message is
      covered by the same signature as that message. */
  function Covered(message: Message): Message {
    if message.NewKey? && message.key.StampedBytes?
    then Stamped(message.key.payload, message.key.kid, message.key.tick)
    else message
  }

  datatype RawSignature = MadeBy(key: PublicKey, message: Message) | Junk(bytes: seq<byte>)

  predicate Verifies(key: PublicKey, message: Message, raw: RawSignature) {
    key.Readable() && raw == MadeBy(key, Covered(message))
  }

  /** The holder of a seed; key number j is derived from seed, id and j. */
  datatype Owner = Owner(seed: seq<byte>, id: AgentId) {
    function Key(j: nat): PublicKey {
      DerivedKey(seed, id, j)
    }
  }

  /** Naming keys this way is sound: under one seed, keys with different names are derived
      from different bytes. */
  lemma DerivationsDistinct(seed: seq<byte>, id: AgentId, count: nat, id': AgentId, count': nat)
    ensures Encodings.KeyMaterial(seed, id, count) == Encodings.KeyMaterial(seed, id', count')
       <==> DerivedKey(seed, id, count) == DerivedKey(seed, id', count')
  {
    Encodings.KeyMaterialCollisions(seed, id, count, seed, id', count');
  }
}
