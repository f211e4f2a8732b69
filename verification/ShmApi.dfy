/** The register's two access functions as the processes call them, over the
  * message array in place. Interleavings and crashes are the subject of
  * `SharedRegister`; here the caller owns the lock or was refused it.
  */
module ShmApi {
  import opened CText
  import opened SharedRegister

  class Segment {
    var status: int
    const message: array<char>

    ghost predicate Valid()
      reads this
    {
      message.Length >= 1
    }

    /** The (status, text) pair a reader sees. */
    ghost function Contents(): Value
      reads this, message
    {
      Known(status, UpToNul(message[..]))
    }

    constructor (cap: nat)
      requires cap >= 1
      ensures Valid() && fresh(message) && message.Length == cap
      ensures Contents() == Known(0, [])
    {
      status := 0;
      message := new char[cap](_ => NUL);
      new;
      UpToNulIs(message[..], []);
    }

    /** `shm_api_write`: all of the value or nothing of it. */
    method Write(locked: bool, newStatus: int, text: CString) returns (ok: bool)
      requires Valid()
      modifies this`status, message
      ensures Valid() && ok == locked
      ensures Contents() == if locked then Known(newStatus, Cut(text, message.Length)) else old(Contents())
    {
      if !locked {
        return false;
      }
      status := newStatus;
      ghost var t := Cut(text, message.Length);
      var k := 0;
      while k < |text| && k < message.Length - 1
        invariant k <= |t| && status == newStatus
        invariant message[..k] == t[..k]
      {
        message[k] := text[k];
        k := k + 1;
      }
      message[k] := NUL;
      assert message[..k] == t;
      UpToNulIs(message[..], t);
      return true;
    }

    /** `shm_api_read`: reads back exactly what the last write left. */
    method Read(locked: bool) returns (ok: bool, outStatus: int, outMsg: string)
      requires Valid()
      ensures ok == locked
      ensures ok ==> outStatus == status && outMsg == Cut(UpToNul(message[..]), message.Length)
    {
      ok, outStatus, outMsg := locked, 0, [];
      if !locked {
        return;
      }
      outStatus := status;
      while |outMsg| < message.Length - 1 && message[|outMsg|] != NUL
        invariant |outMsg| <= message.Length - 1
        invariant outMsg == message[..|outMsg|] && NulFree(outMsg)
        decreases message.Length - |outMsg|
      {
        outMsg := outMsg + [message[|outMsg|]];
      }
      UpToNulLongest(message[..], outMsg);
      if message[|outMsg|] == NUL {
        UpToNulIs(message[..], outMsg);
      }
    }
  }
}
