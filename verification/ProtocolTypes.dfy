/**
 * Types, bounds and revert reasons shared by the contracts
 * (contracts/protocol-types/src/lib.rs).
 *
 * Registry addresses, hashes and contract addresses are only ever compared with each
 * other and with zero, so they are natural numbers.
 */
module ProtocolTypes {

  type byte = b: int | 0 <= b < 256
  type Bytes = seq<byte>
  type u8 = n: int | 0 <= n < 256
  type B256 = nat
  type Address = nat

  const ZERO: nat := 0

  const U32_RANGE: nat := 0x1_0000_0000
  const U64_RANGE: nat := 0x1_0000_0000_0000_0000

  const MAX_CID_LEN: nat := 64
  const MAX_BATCH_SIZE: nat := 100
  const MAX_CLEAR_ENTRIES_BATCH: nat := 500
  const MAX_DOMAIN_LEN: nat := 255
  const MAX_PATH_LEN: nat := 512
  const LOGIC_UPGRADE_TIMELOCK_SECS: nat := 604800
  const VERIFIER_UPGRADE_TIMELOCK_SECS: nat := 172800
  const MIN_GOVERNANCE_KEYS: nat := 3
  const MAX_GOVERNANCE_KEYS: nat := 50
  const KEY_LEN: nat := 64
  const MLDSA44_KEY_LEN: nat := 1312
  const MLDSA44_SIG_LEN: nat := 2420

  const ROOT_POLICY_BODY: u8 := 0
  const PRESS_REGISTRY_BODY: u8 := 1
  const DNS_GOVERNANCE_BODY: u8 := 2

  /**
   * The two foreign computations. Both are deterministic; `verify` is fixed per verifier
   * module address. Nothing else is assumed of either unless a lemma says so.
   */
  datatype Crypto = Crypto(
    keccak: Bytes -> B256,
    verify: (Address, B256, Bytes, Bytes) -> bool)

  /** Why a call reverts. `Panic` is a Rust abort, which also rolls everything back. */
  datatype Error =
    | CardAlreadyExists | CardNotFound | UnrecognizedPolicy | PressNotAuthorized | PressRevoked
    | InvalidPressSignature | SequenceMismatch | NonceReused | StalePrevCid
    | PolicyAlreadyRegistered | SubCardNotFound | SubCardAlreadyActive | OfferExpired | OfferAtCapacity
    | GovernanceVersionMismatch | InvalidGovernanceSignature | DuplicateSigner | InsufficientQuorum
    | QuorumTooLow | KeysetTooSmall | LogCidTooLong
    | KeySchemeAlreadyUpgraded | SchemeUpgradeNotAvailable | RotationPayloadExpired | MlDsa44KeyHashMismatch
    | ForwardAlreadySet | CallerNotLogicContract
    | UpgradeAlreadyPending | UpgradeTimelockNotElapsed | UpgradeAddressMismatch | NoUpgradePending
    | BatchSizeInvalid | BatchItemInvalid | PolicyDeleteDisabled | PolicyDeleteAlreadyDisabled
    | DomainNotFound | DomainAlreadyRegistered | DomainSuspended | CardNotDnsGovernancePolicy
    | PolicyCardNotFound | DomainPathEntryNotFound | InvalidDnsParameter
    | SubCardNotDomainAdminSubcard | AdminCardMismatch | InvalidAdminCardSignature
    | InvalidPayload | StaleRegistrationLogHead
    | DeregisteredAtImmutable | DomainExistsImmutable | InvalidAddress | InvalidKeyLength | InvalidKeysFlat
    | CidTooLong
    | Panic
}
