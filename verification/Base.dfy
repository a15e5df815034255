/** Small vocabulary shared by every module of the model. */
module Base {

  datatype Option<+T> = None | Some(value: T)

  /** One octet of a buffer, a frame or a socket stream. */
  type Byte = x: int | 0 <= x < 256

  type Bytes = seq<Byte>

  /** Slots in one chunk of the task queue: util/mpmc_queue.h, line 77. */
  const CHUNK_SIZE: nat := 64

  function Min(a: int, b: int): (r: int) {
    if a <= b then a else b
  }

  function Max(a: int, b: int): (r: int) {
    if a <= b then b else a
  }

  lemma Assoc(a: Bytes, b: Bytes, c: Bytes)
    ensures a + b + c == a + (b + c)
  {
  }
}
