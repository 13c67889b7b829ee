/** The width every counter, clock and register of the programs modelled here has. */
module Words {
  const WORD: nat := 0x1_0000_0000_0000_0000
}
