/** The error catalog of the portable ABI, wasm/codec.ts. */
module ErrorCatalog {
  datatype ErrorCode =
    | InvalidJson | UnknownField | DuplicateField | RequestTooLarge | ResponseTooLarge | InvalidAbi
    | InvalidRequest | UnknownOperation | CapabilityUnavailable | ExecutionStateRequired | DeadlineExceeded
    | CancellationRequested | InvalidBase64 | InvalidUtf8 | InputTooLarge | InvalidKey | InvalidNonce
    | AuthenticationFailed | Internal

  function Name(c: ErrorCode): string {
    match c
    case InvalidJson => "invalid_json"
    case UnknownField => "unknown_field"
    case DuplicateField => "duplicate_field"
    case RequestTooLarge => "request_too_large"
    case ResponseTooLarge => "response_too_large"
    case InvalidAbi => "invalid_abi"
    case InvalidRequest => "invalid_request"
    case UnknownOperation => "unknown_operation"
    case CapabilityUnavailable => "capability_unavailable"
    case ExecutionStateRequired => "execution_state_required"
    case DeadlineExceeded => "deadline_exceeded"
    case CancellationRequested => "cancellation_requested"
    case InvalidBase64 => "invalid_base64"
    case InvalidUtf8 => "invalid_utf8"
    case InputTooLarge => "input_too_large"
    case InvalidKey => "invalid_key"
    case InvalidNonce => "invalid_nonce"
    case AuthenticationFailed => "authentication_failed"
    case Internal => "internal"
  }

  function Message(c: ErrorCode): string {
    match c
    case InvalidJson => "JSON is malformed or not canonical ABI input"
    case UnknownField => "JSON contains an unknown field"
    case DuplicateField => "JSON contains a duplicate object field"
    case RequestTooLarge => "request exceeds the configured byte limit"
    case ResponseTooLarge => "response exceeds the configured byte limit"
    case InvalidAbi => "request ABI version is unsupported"
    case InvalidRequest => "request does not satisfy the ABI contract"
    case UnknownOperation => "operation is unsupported"
    case CapabilityUnavailable => "required capability is unavailable"
    case ExecutionStateRequired => "host did not provide checked execution state"
    case DeadlineExceeded => "request deadline has been exceeded"
    case CancellationRequested => "request cancellation was requested"
    case InvalidBase64 => "value is not canonical standard padded Base64"
    case InvalidUtf8 => "value is not valid UTF-8"
    case InputTooLarge => "operation input exceeds the configured byte limit"
    case InvalidKey => "cryptographic key has an invalid length"
    case InvalidNonce => "AES-GCM nonce must be exactly 12 bytes"
    case AuthenticationFailed => "AES-GCM authentication failed"
    case Internal => "portable operation failed without a safe public detail"
  }

  predicate Retryable(c: ErrorCode) { c.DeadlineExceeded? }
}
