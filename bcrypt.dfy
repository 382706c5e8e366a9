/**
 * The part of bcrypt the user service relies on: `hashSync`/`hash` with a fixed
 * work factor and `compareSync`. The algorithm itself is not modelled: a digest
 * records the cost and the salt it was made with and a derived key. bcrypt reads
 * only the first 72 bytes of its input, so the key is derived from that prefix;
 * the model identifies the key with the prefix itself, which assumes no two
 * different prefixes give the same key. A digest therefore accepts exactly the
 * texts that share the hashed text's first 72 characters.
 */
module Bcrypt {
  import opened Wrappers

  /** The work factor the service passes to every hashing call. */
  const COST: nat := 10

  /** How many leading bytes of its input bcrypt uses. */
  const MAX_INPUT: nat := 72

  /** bcrypt draws a fresh random salt per call; here it is an input. */
  type Salt = nat

  datatype Digest = Digest(cost: nat, salt: Salt, key: string)

  /** What a secret field of a stored user holds: a bcrypt digest, or a plain
      string that reached the store without going through bcrypt. */
  datatype Stored = Plain(text: string) | Hashed(digest: Digest)

  /** The part of a text bcrypt reads. */
  function Significant(data: string): (r: string)
    ensures |r| <= MAX_INPUT && r <= data
    ensures |data| <= MAX_INPUT ==> r == data
  {
    if |data| <= MAX_INPUT then data else data[..MAX_INPUT]
  }

  function Hash(data: string, salt: Salt): Digest
  {
    Digest(COST, salt, Significant(data))
  }

  /** bcrypt.compareSync(data, hash): throws when the hash is null/undefined,
      answers false for a string that is not a bcrypt digest, and otherwise
      recomputes the key from the text with the digest's own cost and salt. */
  function CompareSync(data: string, hash: Option<Stored>): (r: Result<bool, string>)
    ensures r.Failure? <==> hash.None?
    ensures r == Success(true) ==> hash.value.Hashed? && hash.value.digest.key == Significant(data)
  {
    match hash
    case None => Failure("data and hash arguments required")
    case Some(Plain(_)) => Success(false)
    case Some(Hashed(d)) => Success(d.key == Significant(data))
  }

  /** A digest accepts the text it was made from, whatever the salt. */
  lemma CompareAcceptsHash(data: string, salt: Salt)
    ensures CompareSync(data, Some(Hashed(Hash(data, salt)))) == Success(true)
  {
  }

  /** A digest rejects every text whose first 72 characters differ from those of
      the text it was made from. */
  lemma CompareRejectsOther(data: string, other: string, salt: Salt)
    requires Significant(other) != Significant(data)
    ensures CompareSync(other, Some(Hashed(Hash(data, salt)))) == Success(false)
  {
  }

  /** A digest also accepts a different text that shares the first 72
      characters of the text it was made from. */
  lemma CompareAcceptsSharedPrefix(data: string, other: string, salt: Salt)
    requires |data| >= MAX_INPUT && |other| >= MAX_INPUT
    requires data[..MAX_INPUT] == other[..MAX_INPUT]
    ensures CompareSync(other, Some(Hashed(Hash(data, salt)))) == Success(true)
  {
  }
}
