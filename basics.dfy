/** Types and limits shared by every part of the proxy model. */
module Basics {

  /** One octet, as the proxy's `char` buffers hold it. */
  newtype byte = b: int | 0 <= b < 256

  datatype Option<T> = None | Some(value: T)

  /** Capacity of the whole object cache, in payload bytes (proxy.c:6). */
  const MaxCacheSize: nat := 1049000

  /** Largest object the cache admits, in bytes (proxy.c:7). */
  const MaxObjectSize: nat := 102400

  /** Size of the text-line buffers (MAXLINE of the CS:APP support header). */
  const MaxLine: nat := 8192

  /** Size of the raw I/O buffers (MAXBUF of the CS:APP support header). */
  const MaxBuf: nat := 8192
}
