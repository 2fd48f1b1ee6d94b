// Constants and records shared by the L1D test bench (sim/l1d/util.hpp, sim/l1d/params.hpp).
module L1dTypes {
  import opened Words

  const RCU_MAX_SIZE: nat := 16
  const WAKEUP_BASE_DELAY: nat := 1
  const WAKEUP_MAX_DELAY: nat := 5

  const BURST_NUM: nat := 8
  const BURST_SIZE: nat := 64
  const BEAT_BYTES: nat := BURST_SIZE / 8
  const MEM_BASE_DELAY: nat := 3
  const MEM_MAX_DELAY: nat := 50
  const PAGETABLE_PADDR_BASE: nat := 0x1000_0000
  const PAGETABLE_PADDR_UPPER: nat := 0x1001_0000
  const DATA_PADDR_BASE: nat := 0x8000_0000
  const DATA_PADDR_UPPER: nat := 0x8001_0000

  const LDU_LB: nat := 0
  const LDU_LH: nat := 1
  const LDU_LW: nat := 2
  const LDU_LD: nat := 3
  const LDU_LBU: nat := 4
  const LDU_LHU: nat := 5
  const LDU_LWU: nat := 6

  const STU_SB: nat := 0
  const STU_SH: nat := 1
  const STU_SW: nat := 2
  const STU_SD: nat := 3

  /** A load or store request; `isStore` is the source's `load_or_store`. */
  datatype Req = Req(
    paddr: u64,
    data: u64,
    robIndex: u8,
    rdAddr: u8,
    delay: u16,
    isFenced: bool,
    isStore: bool,
    opcode: u8,
    awake: bool,
    issued: bool,
    done: bool)

  const NO_REQ: Req := Req(0, 0, 0, 0, 0, false, false, 0, false, false, false)

  /** The fields of the LSU's completion port that the reorder buffer reads. */
  datatype LsuResp = LsuResp(data: u64, robIndex: u8, rdAddr: u8)

  /** Same operation: everything that completion and wakeup may not change. */
  predicate SameOp(a: Req, b: Req) {
    a.paddr == b.paddr && a.isFenced == b.isFenced && a.isStore == b.isStore && a.opcode == b.opcode
  }

  /** Same operation in the same reorder-buffer slot. */
  predicate SameEntry(a: Req, b: Req) {
    SameOp(a, b) && a.robIndex == b.robIndex
  }

  /** As the two-part constructor builds it: no flag is set yet. */
  predicate Unprocessed(r: Req) {
    !r.awake && !r.issued && !r.done
  }
}
