// Where the parts of a user address space lie.
module UserLayout {
  const PAGE_SIZE := 4096
  const TABLE_ENTRIES := 1024
  const USER_TABLES := 16
  const USER_PAGES := 16384
  const USER_CODE_ADDR := 0x40000000
  const USER_STACK_SIZE := 0x4000
  const USER_STACK_TOP := 0x44000000
  const USER_HEAP_LIMIT := 0x43FFB000

  /** The end of the data segment may move by `increment`: it stays between the start of the heap and
      its limit. */
  predicate MayMove(start: nat, brk: nat, increment: int) { start <= brk + increment <= USER_HEAP_LIMIT }
}
