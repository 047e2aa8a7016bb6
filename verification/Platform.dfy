/**
 The primitives the vault takes from its libraries, as functions with laws. Everything about the
 vault is proved for every platform that obeys the laws it names.
 */
module Platform {
  import opened Wrappers

  newtype byte = x: int | 0 <= x < 256
  type Bytes = seq<byte>

  /** The six declared fields of one backup entry. */
  datatype Entry = Entry(
    serviceName: string,
    urlOrAppName: string,
    category: string,
    loginId: string,
    password: string,
    memo: Option<string>)

  /** Encryption (its random iv is the draw number), key derivation, password hashing (its random
      salt is the draw number), and the JSON codec of backups. */
  datatype Platform = Platform(
    seal: (Bytes, nat, string) -> string,
    open: (Bytes, string) -> Option<string>,
    derive: (string, string) -> Bytes,
    hash: (string, nat) -> string,
    verify: (string, string) -> bool,
    stringify: seq<Entry> -> string,
    parse: string -> Option<seq<Entry>>)

  ghost predicate RoundTrips(p: Platform) {
    forall key, draw, text :: p.open(key, p.seal(key, draw, text)) == Some(text)
  }

  ghost predicate VerifiesOnly(p: Platform) {
    forall password, draw, attempt :: p.verify(attempt, p.hash(password, draw)) <==> attempt == password
  }

  ghost predicate Lawful(p: Platform) {
    RoundTrips(p) && VerifiesOnly(p)
  }

  /** A payload that opens under one key opens under no other key. */
  ghost predicate WrongKeyFails(p: Platform) {
    forall key, other, payload :: key != other && p.open(key, payload).Some? ==> p.open(other, payload) == None
  }

  ghost predicate JsonRoundTrips(p: Platform) {
    forall entries :: p.parse(p.stringify(entries)) == Some(entries)
  }
}
