/** The guest processes, shared by the system that boots them and the CPUs they run on. */
module Processes {
  import opened Integers

  class Process {
    const maxHarts: uint64
    var bootHart: uint64
    var isCompleted: bool

    constructor (maxHarts: uint64)
      ensures this.maxHarts == maxHarts && !isCompleted
    {
      this.maxHarts := maxHarts;
      bootHart, isCompleted := 0, false;
    }
  }
}
