/** What both directions of the imond/flicp file transfer share. */
module Transfer {
  import opened Bytes

  const ACK: Byte := 0x06
  const NAK: Byte := 0x15
  const BLOCK: nat := 1024   // TRANSFER_BUFFER_SIZE
}
