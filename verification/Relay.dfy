/** What happens to a datagram's bytes on their way from Collector's socket to
  * Router's TCP connection: four bounded buffers, each filled by a C call that
  * may cut or stop at a NUL.
  */
module Relay {
  import opened CText

  const MAX_PAYLOAD_SIZE: nat := 1024
  const TCP_BUF_SIZE: nat := MAX_PAYLOAD_SIZE + 64
  const PREFIX: string := "[TCP-RELAY] "

  /** `recvfrom` fills at most size - 1 bytes and the code adds the NUL. */
  function Received(datagram: string): (text: string)
    ensures NulFree(text) && |text| <= MAX_PAYLOAD_SIZE - 1
  {
    var n := if |datagram| <= MAX_PAYLOAD_SIZE - 1 then |datagram| else MAX_PAYLOAD_SIZE - 1;
    UpToNulTerminated(datagram[..n]);
    UpToNul(datagram[..n] + [NUL])
  }

  /** The text the register holds after `shm_api_write` of a datagram. */
  function Stored(datagram: string, cap: nat): string
    requires cap >= 1
  {
    Cut(Received(datagram), cap)
  }

  /** The line Router composes from the register's text. */
  function Line(stored: string, cap: nat): string
    requires cap >= 1
  {
    var payload := Cut(stored, cap);
    Cut(PREFIX + payload + "\n", TCP_BUF_SIZE)
  }

  /** What reaches the socket: the bytes before the first NUL among the
    * datagram's first 1023. */
  function Payload(datagram: string): string {
    UpToNul(datagram[..if |datagram| < 1023 then |datagram| else 1023])
  }

  /** Over a register of any size up to 1024 the line is the prefix, the payload
    * cut to that register, and a newline; with the System V register nothing
    * after the socket cuts anything. */
  lemma RelayedLine(datagram: string, cap: nat)
    requires 1 <= cap <= MAX_PAYLOAD_SIZE
    ensures Line(Stored(datagram, cap), cap) == "[TCP-RELAY] " + Cut(Payload(datagram), cap) + "\n"
    ensures Cut(Payload(datagram), MAX_PAYLOAD_SIZE) == Payload(datagram)
  {
    UpToNulTerminated(datagram[..if |datagram| < 1023 then |datagram| else 1023]);
    assert Received(datagram) == Payload(datagram);
  }
}
