/** The machine's integers. */
module Machine {
  const TWO_TO_THE_64: nat := 0x1_0000_0000_0000_0000
}
