/** What the models of the persistent-communication library share: types, and a fact of arithmetic. */
module Common {

  datatype Option<+T> = None | Some(value: T)

  newtype byte = x: int | 0 <= x < 256

  /** The contents of a message buffer. Persistent operations only carry MPI_BYTE. */
  type Buffer = seq<byte>

  /** `request->type`, without the direction. */
  datatype Kind = Searching | Rdma | Fallback

  /** The two ends of one persistent channel. */
  datatype Role = Sender | Receiver {
    function Peer(): Role {
      if Sender? then Receiver else Sender
    }
  }

  lemma MulLess(a: int, b: int, d: nat)
    ensures a < b ==> a * d + d <= b * d
  {
    if a < b {
      var c := b - a - 1;
      assert 0 <= c * d;
      assert b * d == (a + 1 + c) * d == a * d + d + c * d;
    }
  }
}
