/** Types that several parts of the model share. */
module Basics {

  type byte = x: int | 0 <= x < 256

  datatype Option<T> = None | Some(value: T)

  /** BAKE_SUPERBLOCK_SIZE: the head of the log that belongs to no region. */
  const SUPERBLOCK: nat := 4096

  /** file_region_id_t. */
  datatype Region = Region(off: nat, size: nat)

  function EndOf(r: Region): nat { r.off + r.size }

  ghost predicate Apart(r: Region, q: Region) { EndOf(r) <= q.off || EndOf(q) <= r.off }
}
