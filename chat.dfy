/** What the bot does on the chat transport, in order: reply to the
    incoming message, edit the progress message it replied with most
    recently, or send a message to another chat. */
module Chat {

  datatype Post =
    | Reply(text: string)
    | Edit(text: string)
    | Send(chat: int)
}
