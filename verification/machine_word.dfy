/** The number of values of a 32-bit machine word, shared by everything that counts modulo it. */
module MachineWord {
  const WORD := 0x1_0000_0000
}
