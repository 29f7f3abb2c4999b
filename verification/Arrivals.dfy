/** A byte stream as a receiver meets it: cut into chunks, with interruptions, and then ending. */
module Arrivals {
  import opened Bytes

  type Chunk = s: seq<byte> | s != [] witness [0]

  /** What one pass of the receive loop meets; select and recv may both be interrupted. */
  datatype Arrival = Data(d: Chunk) | Interrupted

  /** Why the stream ends after the arrivals. */
  datatype Ending = Closed | TimedOut | Failed

  /** The byte stream the arrivals carry. */
  function Stream(arrivals: seq<Arrival>): seq<byte> {
    if arrivals == [] then []
    else (if arrivals[0].Data? then arrivals[0].d else []) + Stream(arrivals[1..])
  }
}
