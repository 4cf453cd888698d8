/** Sizes of the machine words whose arithmetic wraps around. */
module MachineWords {
  const TWO_32 := 0x1_0000_0000
  const TWO_64 := 0x1_0000_0000_0000_0000
}
