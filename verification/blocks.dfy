// Block identities and headers.
module Blocks {
  import opened Compact

  // A 256-bit block hash, compared as a number.
  type Id = nat

  type Address = nat

  // A header together with its digest: `hash` stands for keccak256 of the
  // encoding, so that two headers with one digest are one header is a property
  // of a set of headers (see `Ghostdag.Compatible`), not of this type.
  datatype Header = Header(hash: Id, parents: seq<Id>, bits: U32, miner: Address, timestampMs: nat)

  type Headers = map<Id, Header>

  datatype Option<+T> = None | Some(value: T)
}
