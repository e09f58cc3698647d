// Sizes of the machine and of the kernel's tables that several modules share.
module Machine {

  const TWO_32 := 0x1_0000_0000
  const FOUR_KB := 0x1000
  const FOUR_MB := 0x40_0000
  const VIDMEM_PAGE := 0xB8        // page number of video memory, 0xB8000
  const MAX_TERMINALS := 3
}
