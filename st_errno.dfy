/** The error vocabulary of the stack (src/st_errno.h): return codes, the
    error groups that may be inserted in the high octet, the mask that takes
    them out again, and the EXIT_ON_ERR guard. */
module StErrno {

  import opened NfcUtils

  /** Every function of the stack reports a 16-bit unsigned return code. */
  type ReturnCode = x: int | 0 <= x < 0x1_0000

  datatype Option<T> = None | Some(value: T)

  const ST_ERR_NONE: ReturnCode := 0
  const ST_ERR_NOMEM: ReturnCode := 1
  const ST_ERR_BUSY: ReturnCode := 2
  const ST_ERR_IO: ReturnCode := 3
  const ST_ERR_TIMEOUT: ReturnCode := 4
  const ST_ERR_REQUEST: ReturnCode := 5
  const ST_ERR_NOMSG: ReturnCode := 6
  const ST_ERR_PARAM: ReturnCode := 7
  const ST_ERR_SYSTEM: ReturnCode := 8
  const ST_ERR_FRAMING: ReturnCode := 9
  const ST_ERR_OVERRUN: ReturnCode := 10
  const ST_ERR_PROTO: ReturnCode := 11
  const ST_ERR_INTERNAL: ReturnCode := 12
  const ST_ERR_AGAIN: ReturnCode := 13
  const ST_ERR_MEM_CORRUPT: ReturnCode := 14
  const ST_ERR_NOT_IMPLEMENTED: ReturnCode := 15
  const ST_ERR_PC_CORRUPT: ReturnCode := 16
  const ST_ERR_SEND: ReturnCode := 17
  const ST_ERR_IGNORE: ReturnCode := 18
  const ST_ERR_SEMANTIC: ReturnCode := 19
  const ST_ERR_SYNTAX: ReturnCode := 20
  const ST_ERR_CRC: ReturnCode := 21
  const ST_ERR_NOTFOUND: ReturnCode := 22
  const ST_ERR_NOTUNIQUE: ReturnCode := 23
  const ST_ERR_NOTSUPP: ReturnCode := 24
  const ST_ERR_WRITE: ReturnCode := 25
  const ST_ERR_FIFO: ReturnCode := 26
  const ST_ERR_PAR: ReturnCode := 27
  const ST_ERR_DONE: ReturnCode := 28
  const ST_ERR_RF_COLLISION: ReturnCode := 29
  const ST_ERR_HW_OVERRUN: ReturnCode := 30
  const ST_ERR_RELEASE_REQ: ReturnCode := 31
  const ST_ERR_SLEEP_REQ: ReturnCode := 32
  const ST_ERR_WRONG_STATE: ReturnCode := 33
  const ST_ERR_MAX_RERUNS: ReturnCode := 34
  const ST_ERR_DISABLED: ReturnCode := 35
  const ST_ERR_HW_MISMATCH: ReturnCode := 36
  const ST_ERR_LINK_LOSS: ReturnCode := 37
  const ST_ERR_INVALID_HANDLE: ReturnCode := 38

  const ST_ERR_INCOMPLETE_BYTE: ReturnCode := 40
  const ST_ERR_INCOMPLETE_BYTE_01: ReturnCode := 41
  const ST_ERR_INCOMPLETE_BYTE_02: ReturnCode := 42
  const ST_ERR_INCOMPLETE_BYTE_03: ReturnCode := 43
  const ST_ERR_INCOMPLETE_BYTE_04: ReturnCode := 44
  const ST_ERR_INCOMPLETE_BYTE_05: ReturnCode := 45
  const ST_ERR_INCOMPLETE_BYTE_06: ReturnCode := 46
  const ST_ERR_INCOMPLETE_BYTE_07: ReturnCode := 47

  /** The names the header gives to error numbers. */
  datatype ErrorName =
    | NoError | NoMem | Busy | Io | Timeout | Request | NoMsg | Param | System | Framing | Overrun
    | Proto | Internal | Again | MemCorrupt | NotImplemented | PcCorrupt | Send | Ignore
    | Semantic | Syntax | Crc | NotFound | NotUnique | NotSupp | Write | Fifo | Par | Done
    | RfCollision | HwOverrun | ReleaseReq | SleepReq | WrongState | MaxReruns | Disabled
    | HwMismatch | LinkLoss | InvalidHandle | IncompleteByte | IncompleteByte01 | IncompleteByte02
    | IncompleteByte03 | IncompleteByte04 | IncompleteByte05 | IncompleteByte06 | IncompleteByte07

  /** The number the header assigns to each name; every one fits an octet,
      as the header's comment says they are represented by a uint8_t. */
  function Code(e: ErrorName): (r: ReturnCode)
    ensures r <= 0xFF
  {
    match e
    case NoError => ST_ERR_NONE
    case NoMem => ST_ERR_NOMEM
    case Busy => ST_ERR_BUSY
    case Io => ST_ERR_IO
    case Timeout => ST_ERR_TIMEOUT
    case Request => ST_ERR_REQUEST
    case NoMsg => ST_ERR_NOMSG
    case Param => ST_ERR_PARAM
    case System => ST_ERR_SYSTEM
    case Framing => ST_ERR_FRAMING
    case Overrun => ST_ERR_OVERRUN
    case Proto => ST_ERR_PROTO
    case Internal => ST_ERR_INTERNAL
    case Again => ST_ERR_AGAIN
    case MemCorrupt => ST_ERR_MEM_CORRUPT
    case NotImplemented => ST_ERR_NOT_IMPLEMENTED
    case PcCorrupt => ST_ERR_PC_CORRUPT
    case Send => ST_ERR_SEND
    case Ignore => ST_ERR_IGNORE
    case Semantic => ST_ERR_SEMANTIC
    case Syntax => ST_ERR_SYNTAX
    case Crc => ST_ERR_CRC
    case NotFound => ST_ERR_NOTFOUND
    case NotUnique => ST_ERR_NOTUNIQUE
    case NotSupp => ST_ERR_NOTSUPP
    case Write => ST_ERR_WRITE
    case Fifo => ST_ERR_FIFO
    case Par => ST_ERR_PAR
    case Done => ST_ERR_DONE
    case RfCollision => ST_ERR_RF_COLLISION
    case HwOverrun => ST_ERR_HW_OVERRUN
    case ReleaseReq => ST_ERR_RELEASE_REQ
    case SleepReq => ST_ERR_SLEEP_REQ
    case WrongState => ST_ERR_WRONG_STATE
    case MaxReruns => ST_ERR_MAX_RERUNS
    case Disabled => ST_ERR_DISABLED
    case HwMismatch => ST_ERR_HW_MISMATCH
    case LinkLoss => ST_ERR_LINK_LOSS
    case InvalidHandle => ST_ERR_INVALID_HANDLE
    case IncompleteByte => ST_ERR_INCOMPLETE_BYTE
    case IncompleteByte01 => ST_ERR_INCOMPLETE_BYTE_01
    case IncompleteByte02 => ST_ERR_INCOMPLETE_BYTE_02
    case IncompleteByte03 => ST_ERR_INCOMPLETE_BYTE_03
    case IncompleteByte04 => ST_ERR_INCOMPLETE_BYTE_04
    case IncompleteByte05 => ST_ERR_INCOMPLETE_BYTE_05
    case IncompleteByte06 => ST_ERR_INCOMPLETE_BYTE_06
    case IncompleteByte07 => ST_ERR_INCOMPLETE_BYTE_07
  }

  /** The name of an error number, if the header gives it one. */
  function NameOf(c: ReturnCode): (r: Option<ErrorName>)
  {
    if c == ST_ERR_NONE then Some(NoError)
    else if c == ST_ERR_NOMEM then Some(NoMem)
    else if c == ST_ERR_BUSY then Some(Busy)
    else if c == ST_ERR_IO then Some(Io)
    else if c == ST_ERR_TIMEOUT then Some(Timeout)
    else if c == ST_ERR_REQUEST then Some(Request)
    else if c == ST_ERR_NOMSG then Some(NoMsg)
    else if c == ST_ERR_PARAM then Some(Param)
    else if c == ST_ERR_SYSTEM then Some(System)
    else if c == ST_ERR_FRAMING then Some(Framing)
    else if c == ST_ERR_OVERRUN then Some(Overrun)
    else if c == ST_ERR_PROTO then Some(Proto)
    else if c == ST_ERR_INTERNAL then Some(Internal)
    else if c == ST_ERR_AGAIN then Some(Again)
    else if c == ST_ERR_MEM_CORRUPT then Some(MemCorrupt)
    else if c == ST_ERR_NOT_IMPLEMENTED then Some(NotImplemented)
    else if c == ST_ERR_PC_CORRUPT then Some(PcCorrupt)
    else if c == ST_ERR_SEND then Some(Send)
    else if c == ST_ERR_IGNORE then Some(Ignore)
    else if c == ST_ERR_SEMANTIC then Some(Semantic)
    else if c == ST_ERR_SYNTAX then Some(Syntax)
    else if c == ST_ERR_CRC then Some(Crc)
    else if c == ST_ERR_NOTFOUND then Some(NotFound)
    else if c == ST_ERR_NOTUNIQUE then Some(NotUnique)
    else if c == ST_ERR_NOTSUPP then Some(NotSupp)
    else if c == ST_ERR_WRITE then Some(Write)
    else if c == ST_ERR_FIFO then Some(Fifo)
    else if c == ST_ERR_PAR then Some(Par)
    else if c == ST_ERR_DONE then Some(Done)
    else if c == ST_ERR_RF_COLLISION then Some(RfCollision)
    else if c == ST_ERR_HW_OVERRUN then Some(HwOverrun)
    else if c == ST_ERR_RELEASE_REQ then Some(ReleaseReq)
    else if c == ST_ERR_SLEEP_REQ then Some(SleepReq)
    else if c == ST_ERR_WRONG_STATE then Some(WrongState)
    else if c == ST_ERR_MAX_RERUNS then Some(MaxReruns)
    else if c == ST_ERR_DISABLED then Some(Disabled)
    else if c == ST_ERR_HW_MISMATCH then Some(HwMismatch)
    else if c == ST_ERR_LINK_LOSS then Some(LinkLoss)
    else if c == ST_ERR_INVALID_HANDLE then Some(InvalidHandle)
    else if c == ST_ERR_INCOMPLETE_BYTE then Some(IncompleteByte)
    else if c == ST_ERR_INCOMPLETE_BYTE_01 then Some(IncompleteByte01)
    else if c == ST_ERR_INCOMPLETE_BYTE_02 then Some(IncompleteByte02)
    else if c == ST_ERR_INCOMPLETE_BYTE_03 then Some(IncompleteByte03)
    else if c == ST_ERR_INCOMPLETE_BYTE_04 then Some(IncompleteByte04)
    else if c == ST_ERR_INCOMPLETE_BYTE_05 then Some(IncompleteByte05)
    else if c == ST_ERR_INCOMPLETE_BYTE_06 then Some(IncompleteByte06)
    else if c == ST_ERR_INCOMPLETE_BYTE_07 then Some(IncompleteByte07)
    else None
  }

  /** Decoding a named code gives back its name. */
  lemma NameOfCode(e: ErrorName)
    ensures NameOf(Code(e)) == Some(e)
  {
    match e
    case NoError => {}
    case NoMem => {}
    case Busy => {}
    case Io => {}
    case Timeout => {}
    case Request => {}
    case NoMsg => {}
    case Param => {}
    case System => {}
    case Framing => {}
    case Overrun => {}
    case Proto => {}
    case Internal => {}
    case Again => {}
    case MemCorrupt => {}
    case NotImplemented => {}
    case PcCorrupt => {}
    case Send => {}
    case Ignore => {}
    case Semantic => {}
    case Syntax => {}
    case Crc => {}
    case NotFound => {}
    case NotUnique => {}
    case NotSupp => {}
    case Write => {}
    case Fifo => {}
    case Par => {}
    case Done => {}
    case RfCollision => {}
    case HwOverrun => {}
    case ReleaseReq => {}
    case SleepReq => {}
    case WrongState => {}
    case MaxReruns => {}
    case Disabled => {}
    case HwMismatch => {}
    case LinkLoss => {}
    case InvalidHandle => {}
    case IncompleteByte => {}
    case IncompleteByte01 => {}
    case IncompleteByte02 => {}
    case IncompleteByte03 => {}
    case IncompleteByte04 => {}
    case IncompleteByte05 => {}
    case IncompleteByte06 => {}
    case IncompleteByte07 => {}
  }

  /** No two names share a number. */
  lemma CodesDistinct(a: ErrorName, b: ErrorName)
    ensures Code(a) == Code(b) ==> a == b
  {
    NameOfCode(a);
    NameOfCode(b);
  }

  /** ST_ERR_INCOMPLETE_BYTE_0n: an incomplete octet of which n bits arrived. */
  function IncompleteByteCode(n: nat): (r: ReturnCode)
    requires 1 <= n <= 7
    ensures r == ST_ERR_INCOMPLETE_BYTE + n
  {
    match n
    case 1 => ST_ERR_INCOMPLETE_BYTE_01
    case 2 => ST_ERR_INCOMPLETE_BYTE_02
    case 3 => ST_ERR_INCOMPLETE_BYTE_03
    case 4 => ST_ERR_INCOMPLETE_BYTE_04
    case 5 => ST_ERR_INCOMPLETE_BYTE_05
    case 6 => ST_ERR_INCOMPLETE_BYTE_06
    case 7 => ST_ERR_INCOMPLETE_BYTE_07
  }

  /** The sub-categories an error number can be tagged with. */
  datatype ErrorGroup =
    | Generic | Warn | Process | Sio | RingBuf | Mq | Timer | Rfal | Uart | Spi | I2c

  /** ST_ERR_<G>_GRP: the group tag, a multiple of 0x100 that fits 16 bits. */
  function GroupCode(g: ErrorGroup): (r: ReturnCode)
    ensures r % 0x100 == 0
  {
    match g
    case Generic => 0x0000
    case Warn => 0x0100
    case Process => 0x0200
    case Sio => 0x0800
    case RingBuf => 0x0900
    case Mq => 0x0A00
    case Timer => 0x0B00
    case Rfal => 0x0C00
    case Uart => 0x0D00
    case Spi => 0x0E00
    case I2c => 0x0F00
  }

  /** No two groups share a tag. */
  lemma GroupCodesDistinct(g1: ErrorGroup, g2: ErrorGroup)
    ensures GroupCode(g1) == GroupCode(g2) ==> g1 == g2
  {
  }

  /** The C operator | on non-negative integers, one bit at a time. */
  function BitOr(a: nat, b: nat): nat
    decreases a + b
  {
    if a == 0 then b
    else if b == 0 then a
    else 2 * BitOr(a / 2, b / 2) + (if a % 2 == 1 || b % 2 == 1 then 1 else 0)
  }

  /** OR-ing a value below 2^n into a multiple of 2^n adds it: the two have no bit in common. */
  lemma {:induction false} BitOrDisjoint(m: nat, b: nat, n: nat)
    requires b < Pow2(n)
    ensures BitOr(m * Pow2(n), b) == m * Pow2(n) + b
  {
    var a := m * Pow2(n);
    if n == 0 {
      assert b == 0;
    } else if a != 0 && b != 0 {
      assert a == 2 * (m * Pow2(n - 1));
      BitOrDisjoint(m, b / 2, n - 1);
    }
  }

  /** ST_ERR_NO_MASK(x): the error number without its group. */
  function NoMask(x: nat): (r: ReturnCode)
    ensures r <= 0xFF
    ensures x <= 0xFF ==> r == x
  {
    x % 0x100
  }

  /** Masking twice is masking once. */
  lemma NoMaskIdempotent(x: nat)
    ensures NoMask(NoMask(x)) == NoMask(x)
  {
  }

  /** A one-octet error number and a group tag share no bit, so OR-ing them adds them. */
  lemma GroupOrIsSum(g: ErrorGroup, x: ReturnCode)
    requires x <= 0xFF
    ensures BitOr(GroupCode(g), x) == GroupCode(g) + x
  {
    Pow2Eight();
    BitOrDisjoint(GroupCode(g) / 0x100, x, 8);
  }

  /** ST_ERR_INSERT_<G>_GRP(x): tags x with group g. For an error number of
      one octet the tag goes to the high octet, ST_ERR_NO_MASK gives the
      number back, and the group is what remains. */
  function InsertGroup(g: ErrorGroup, x: ReturnCode): (r: nat)
    ensures x <= 0xFF ==> NoMask(r) == x && r - NoMask(r) == GroupCode(g)
  {
    if x <= 0xFF then
      GroupOrIsSum(g, x);
      BitOr(GroupCode(g), x)
    else
      BitOr(GroupCode(g), x)
  }

  /** EXIT_ON_ERR(r, f) followed by the rest of the enclosing function: the
      status of f is returned as it is when it is an error, and the rest runs
      only when f succeeded. */
  function ExitOnErr(f: ReturnCode, rest: ReturnCode): (r: ReturnCode)
    ensures f != ST_ERR_NONE ==> r == f
    ensures f == ST_ERR_NONE ==> r == rest
    ensures r == ST_ERR_NONE <==> f == ST_ERR_NONE && rest == ST_ERR_NONE
  {
    if ST_ERR_NONE != f then f else rest
  }
}
