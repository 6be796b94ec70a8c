/** What the models of proc.c share: the size of the process table and the states of a
    process. */
module Procs {

  const NPROC := 64

  datatype PState = UNUSED | EMBRYO | SLEEPING | RUNNABLE | RUNNING | ZOMBIE
}
