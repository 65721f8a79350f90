/** Request sizes (malloc.c, "Bounds on request (not chunk) sizes"). */
module Requests {
  import opened Words
  import opened Chunks

  const CHUNK_OVERHEAD: int := 8
  const MIN_REQUEST: int := 23
  const MAX_REQUEST: int := WORD - 128
  const MAX_SMALL_REQUEST: int := 232
  const MAX_SIZE_T: int := WORD - 1

  /** pad_request */
  function PadRequest(bytes: nat): nat {
    Wrap(bytes + CHUNK_OVERHEAD + 15) / 16 * 16
  }

  /** request2size */
  function Request2Size(bytes: nat): nat {
    if bytes < MIN_REQUEST then MIN_CHUNK_SIZE else PadRequest(bytes)
  }

  /** The chunk size dlmalloc looks for; a request that is too large fails for this size. */
  function SizeFor(bytes: nat): nat {
    if bytes >= MAX_REQUEST then MAX_SIZE_T else Request2Size(bytes)
  }

  /** A chunk of the computed size holds the request, the head word and less than 16 bytes more. */
  lemma SizeForFits(bytes: nat)
    requires bytes < MAX_REQUEST
    ensures var nb := SizeFor(bytes);
      && nb % 16 == 0 && MIN_CHUNK_SIZE <= nb < WORD && bytes + CHUNK_OVERHEAD <= nb
      && (nb > MIN_CHUNK_SIZE ==> nb < bytes + CHUNK_OVERHEAD + 16)
      && (bytes <= MAX_SMALL_REQUEST <==> nb < 256)
  {
  }
}
