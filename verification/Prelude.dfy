/** Shared value types and the error type of the `federate-core` crate. */
module Prelude {

  datatype Option<+T> = None | Some(value: T)

  /** The Rust `Result<T, FederateError>`; usable with `:-`. */
  datatype Result<+T> = Ok(value: T) | Err(error: FederateError) {
    predicate IsFailure() {
      Err?
    }

    function PropagateFailure<U>(): Result<U>
      requires Err?
    {
      Err(error)
    }

    function Extract(): T
      requires Ok?
    {
      value
    }
  }

  newtype byte = x: int | 0 <= x < 0x100
  type Bytes = seq<byte>

  const MAX_U64: int := 0xFFFF_FFFF_FFFF_FFFF
  type u64 = x: int | 0 <= x <= 0xFFFF_FFFF_FFFF_FFFF

  /** Lifecycle status of a TLD in the root registry. */
  datatype TldStatus = Official | Delegated | Reserved | Blocked | Disabled | Pending | Expired | Revoked {
    predicate IsResolvable() {
      Official? || Delegated?
    }
  }

  /** Lifecycle status of a domain inside a TLD registry. */
  datatype DomainStatus = Active | Reserved | Pending | Suspended | Expired | Revoked | Transferred {
    predicate IsResolvable() {
      Active?
    }
  }

  /** Which verification layer refused a document. */
  datatype Layer = RootLayer | TldLayer | DomainLayer | ManifestLayer | RegistryLayer | ContentLayer | AuditLayer

  /** Why a well-formed mutation was rejected; one case per message of the source. */
  datatype Rejection =
    | UnsupportedAlgorithm
    | IdMismatch
    | Unsigned
    | InvalidDomainName
    | TldIsDelegated
    | OperatorKeyNotHeld
    | StatusForbidsUpdate
    | TransitionForbidden
    | InvalidLabel
    | RecordExpired
    | RevokedNeedsRoot
    | TldExists
    | NeedsDelegatedType
    | MalformedKey
    | TldStatusUnchanged
    | NotDelegatedManifest
    | NotHex
    | TooManyBlocks
    | PackageTooLarge
    | NotPublishSite
    | AlreadyInitialized
    | AlreadySeeded
    | UnknownSeedMode

  datatype FederateError =
    | NotFederateDomain
    | DomainNotFound(fqdn: string)
    | PathNotFound(path: string)
    | ManifestNotFound(manifest: string)
    | BlockNotFound(block: string)
    | HashMismatch(expected: string)
    | RootUnavailable
    | InvalidRoot
    | InvalidTldName
    | BlockedTld(blocked: string)
    | ReservedTld(reserved: string)
    | TldNotFound(tld: string)
    | TldUnavailable(unavailable: string, status: TldStatus)
    | DelegatedRegistryUnavailable(delegated: string)
    | VerificationFailed(layer: Layer)
    | InvalidSignature
    | Unauthorized
    | Replay
    | MutationRejected(reason: Rejection)
    | Storage
    | Network
    | Serde
}
