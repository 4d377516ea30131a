/** Kernel page constants for x86_64 (as of Linux 6.0.18-200). `PAGE_SIZE`
    and `THREAD_SIZE` are `unsigned long`, as `PAGE_SIZE` starts from `1UL`;
    the others are plain `int` literals. All are modelled as `bv64`, which
    changes no value. */
module PageConstants {

  const TOP_OF_KERNEL_STACK_PADDING: bv64 := 0
  const THREAD_SIZE_ORDER: bv64 := 2
  const PAGE_SHIFT: bv64 := 12
  const PAGE_SIZE: bv64 := 1 << PAGE_SHIFT
  const THREAD_SIZE: bv64 := PAGE_SIZE << THREAD_SIZE_ORDER

  /** A page is 4 KiB and a kernel thread stack is 2^THREAD_SIZE_ORDER = 4
      pages, 16 KiB; neither shift loses a bit. */
  lemma PageSizes()
    ensures PAGE_SIZE == 4096
    ensures THREAD_SIZE == 16384
    ensures THREAD_SIZE == PAGE_SIZE * 4 && THREAD_SIZE >> THREAD_SIZE_ORDER == PAGE_SIZE
  {
  }
}
