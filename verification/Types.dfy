/** Values shared by the gateway and the wrapper. */
module Types {

  datatype Option<+T> = None | Some(value: T)

  const U64_MAX: int := 0xFFFF_FFFF_FFFF_FFFF

  type U64 = n: int | 0 <= n <= 0xFFFF_FFFF_FFFF_FFFF

  /** Rust's `u64::saturating_add`. */
  function SaturatingAdd(a: U64, b: U64): U64 {
    if a + b <= U64_MAX then a + b else U64_MAX
  }

  /** The sum, or the largest value when the sum is larger. */
  lemma Saturates(a: U64, b: U64)
    ensures a + b <= 18_446_744_073_709_551_615 ==> SaturatingAdd(a, b) == a + b
    ensures a + b >= 18_446_744_073_709_551_615 ==> SaturatingAdd(a, b) == 18_446_744_073_709_551_615
  {
  }

  /** An Ethereum address, as an opaque identity. */
  type Address = nat

  /** What a `dcap1:` token decodes to. `owner` is the address its signature
      recovers to; `signature` tells apart two signatures over equal fields. */
  datatype Grant = Grant(
    signer: Address, poolId: nat, spendingCap: U64, expiry: U64, owner: Address, signature: nat)

  /** A row of the gateway's grant table. `T` is the token's representation:
      a string in the byte codec, the decoded `Grant` in the protocol. */
  datatype GrantRecord<T> = GrantRecord(spendingCap: U64, expiry: U64, issuedUnix: U64, token: T)

  type Record = GrantRecord<Grant>

  /** The gateway's constant configuration, with the treasury wallet's address. */
  datatype Config = Config(owner: Address, poolId: nat, cap: U64, ttl: U64)
}
