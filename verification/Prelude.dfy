/** Result types, the error vocabulary of the program, and the view of an
    account that a handler receives from the runtime. */
module Prelude {
  import opened Bytes

  datatype Option<+T> = None | Some(value: T)

  datatype Result<+T> = Ok(value: T) | Err(error: Error)

  /** The generic program errors that are raised, then the program's own codes 3001..3032. */
  datatype Error =
    | NotEnoughAccountKeys
    | IllegalOwner
    | InvalidAccountData
    | InvalidInstructionData
    | InvalidSeeds
    | MissingRequiredSignature
    | AccountAlreadyInitialized
    | ArithmeticOverflow
    | InvalidAuthorityPayload
    | PermissionDenied
    | InvalidInstruction
    | InvalidPubkey
    | InvalidMessageHash
    | SignatureReused
    | InvalidSignatureAge
    | InvalidSessionDuration
    | SessionExpired
    | InvalidAuthenticationKind
    | InvalidMessage
    | SelfReentrancyNotAllowed
    | DeferredAuthorizationExpired
    | DeferredHashMismatch
    | InvalidExpiryWindow
    | UnauthorizedReclaim
    | DeferredAuthorizationNotExpired
    | InvalidSessionAccount
    | ActionBufferInvalid
    | ActionProgramNotWhitelisted
    | ActionProgramBlacklisted
    | ActionSolMaxPerTxExceeded
    | ActionSolLimitExceeded
    | ActionSolRecurringLimitExceeded
    | ActionTokenLimitExceeded
    | ActionTokenRecurringLimitExceeded
    | ActionWhitelistBlacklistConflict
    | ActionTokenMaxPerTxExceeded
    | SessionVaultOwnerChanged
    | SessionVaultDataLenChanged
    | SessionTokenAuthorityChanged

  /** A 32-byte public key. */
  type Pubkey = s: seq<byte> | |s| == 32 witness seq(32, _ => 0)

  /** What the runtime hands to the program for one listed account. */
  datatype AccountInfo = AccountInfo(
    key: Pubkey, owner: Pubkey, lamports: u64, data: seq<byte>,
    isSigner: bool, isWritable: bool)
}
