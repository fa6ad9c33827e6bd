/** What the two WebRTC peers say to each other (`packages/core/src/webrtc/webrtc.rs:28-138`). */
module WebRtcMessages {
  import opened Chunking

  type FileId = nat
  type FileToken = nat
  type Key = nat

  datatype FileDto = FileDto(id: FileId, size: nat)

  /** A token signed with `key` over `nonce`; signatures are taken as unforgeable. */
  datatype SignedToken = SignedToken(key: Key, nonce: Bytes)

  datatype TokenResponse =
    | TokenOk(token: SignedToken)
    | TokenPinRequired(token: SignedToken)
    | TokenInvalidSignature

  /** `RTCPinReceivingResponse`: one text message. */
  datatype PinReply = PinOk | PinRequired | PinTooManyAttempts

  /** `RTCPinSendingResponse`: sent in chunks. */
  datatype PinStatus = FilesOffered(files: seq<FileDto>) | StatusPinRequired | StatusTooManyAttempts

  /** `RTCFileListResponse`: sent in chunks. `Pair` is never sent by a receiving peer. */
  datatype Selection = Selected(tokens: map<FileId, FileToken>) | Declined | SelectionInvalidSignature

  /** The text messages. `Delimiter` stands for any text of at most one byte. */
  datatype Said =
    | Nonce(nonce: Bytes)
    | TokenRequest(signed: SignedToken)
    | TokenAnswer(response: TokenResponse)
    | Pin(pin: string)
    | PinAnswer(reply: PinReply)
    | FileHeader(id: FileId, token: FileToken)
    | FileResult(id: FileId, success: bool)
    | Delimiter

  type Msg = Message<Said>
}
