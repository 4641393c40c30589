// Constants shared by every level of the kernel (h/const.h).
module Constants {
  // A machine address. Semaphores are identified by the address of their integer cell.
  type Address = a: int | 0 <= a < 0x1_0000_0000

  // NULL is the all-ones address. Pointers into a static table are modelled by the index of
  // the record they point to, and NULL among them by NIL.
  const NULL: Address := 0xFFFF_FFFF
  type Ptr = int
  const NIL: Ptr := -1

  // an unsigned machine word; shifts and masks are written as divisions and remainders
  type Word = w: int | 0 <= w < 0x1_0000_0000

  const MAXINT: Address := 2147483647

  const MAXPROC: nat := 20
  const UPROCMAX: nat := 4
  const PAGETABLESIZE: nat := 32
  const PAGESIZE: nat := 4096
  const WORDLEN: nat := 4

  const DEVSEMNO: nat := 49
  const PSEUDOCLK: nat := 48
  const DEVPERINT: nat := 8
  const SUBDEVPERTERM: nat := 2
  const TERMINT: nat := 7

  const READY: int := 1
  const KUSEG: Word := 0x8000_0000
  const KUSEGSTACK: Word := 0xC000_0000
  const SWAPPOOLADDR: Word := 0x2000_0000 + 32 * PAGESIZE
}
