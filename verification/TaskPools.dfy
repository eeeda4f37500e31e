/** The task pool of the I/O programs: how many tasks are free. */
module TaskPools {
  class TaskPool {
    var free: nat

    constructor (count: nat)
      ensures free == count
    {
      free := count;
    }
  }
}
