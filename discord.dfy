/** What the board code sees of Discord: the messages of a channel and the edits, sends and
    deletes it issues. The calls themselves are not part of this model. */
module Discord {

  /** A message of a channel: whether the bot wrote it, and its text. */
  datatype Message = Message(fromBot: bool, content: string)

  /** One call the board code makes on a channel. `Edit` and `Delete` name a message by its
      position in the list the code built from the channel history. */
  datatype BoardOp = Edit(index: nat, content: string) | Send(content: string) | Delete(index: nat)

  /** `channel.history(limit=100)` looks at the 100 most recent messages only. */
  const HistoryLimit: nat := 100
}
