/** The chat log entry (`ChatMessage` of app/types/types.ts), without the
    `id` and `timestamp` fields, which only feed rendering. */
module Messages {

  /** `"user" | "SD Mate"` */
  datatype Sender = User | SDMate

  datatype Message = Message(
    sender: Sender,
    text: string,
    isTranscription: bool,
    audioAvailable: bool)
}
