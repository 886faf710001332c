/** Sizes of kernel/param.h, kernel/fs.h and kernel/riscv.h that several modules share. */
module Params {
  const MAXOPBLOCKS: nat := 10
  const LOGBLOCKS: nat := MAXOPBLOCKS * 3
  const NBUF: nat := 30
  const BSIZE: nat := 1024
  const BPB: nat := 8192
  const PGSIZE: nat := 4096

  function PageRoundUp(a: nat): nat {
    (a + PGSIZE - 1) / PGSIZE * PGSIZE
  }

  lemma RoundUpIs(a: nat)
    ensures PageRoundUp(a) % PGSIZE == 0 && a <= PageRoundUp(a)
    ensures forall p: nat :: p % PGSIZE == 0 && a <= p ==> PageRoundUp(a) <= p
  {
  }
}
