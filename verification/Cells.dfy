// Cells, transactions and the chain data a script may load.
module Cells {
  import opened Machine
  import opened LittleEndian
  import opened Protocol

  const CKB_DECIMAL: int := 100_000_000

  datatype HashType = Data | Type | Data1 | Data2

  datatype Script = Script(codeHash: Bytes32, hashType: HashType, args: Bytes) {
    function Size(): nat { 33 + |args| }
  }

  datatype Cell = Cell(capacity: u64, lock: Script, typeScript: Option<Script>, data: Bytes) {
    /** Bytes the cell keeps on the chain: capacity field, scripts and data. */
    function Size(): nat {
      8 + lock.Size() + (if typeScript.Some? then typeScript.value.Size() else 0) + |data|
    }

    function Occupied(): nat { Size() * CKB_DECIMAL }

    /** CKB stores a cell only when its capacity pays for its bytes. */
    predicate Stored() { Occupied() <= capacity }

    /** The rent pool: capacity beyond what the bytes need. */
    function Unoccupied(): u64 { SatSub(capacity, Occupied()) }
  }

  /** A cell on the chain: where it is, what it is, the hash of its lock and the
      number of the block that created it. */
  datatype LiveCell = LiveCell(outPoint: OutPoint, cell: Cell, lockHash: Bytes32, block: u64)

  /** A resolved transaction. Headers are identified by block number. */
  datatype Transaction = Transaction(
    cellDeps: seq<LiveCell>, headerDeps: seq<u64>, inputs: seq<LiveCell>, outputs: seq<Cell>)

  datatype Xudt = Xudt(amount: u128, typeScript: Script)

  // ---------------------------------------------------------------------------
  // Loading
  // ---------------------------------------------------------------------------

  function HeaderDepNumber(tx: Transaction, index: nat): Exec<u64> {
    if index < |tx.headerDeps| then Ok(tx.headerDeps[index]) else Err(HeaderNotSet)
  }

  /** The header of the block that created a cell, available to a script only if
      the transaction lists that header. */
  function HeaderOf(tx: Transaction, c: LiveCell): Exec<u64> {
    if c.block in tx.headerDeps then Ok(c.block) else Err(HeaderNotSet)
  }

  predicate HasInputLock(tx: Transaction, lockHash: Bytes32) {
    exists c | c in tx.inputs :: c.lockHash == lockHash
  }

  function ParseXudt(cell: Cell): Option<Xudt> {
    if |cell.data| < XUDT_AMOUNT_LEN then None
    else if cell.typeScript.None? then None
    else Some(Xudt(ReadU128(cell.data[..XUDT_AMOUNT_LEN]), cell.typeScript.value))
  }

  // ---------------------------------------------------------------------------
  // Searches
  // ---------------------------------------------------------------------------

  predicate SameContract(lock: Script, self: Script) {
    lock.codeHash == self.codeHash && lock.hashType.Type?
  }

  /** First output locked by the contract of `self`. */
  function FindOpticrum(outputs: seq<Cell>, self: Script): Option<Cell> {
    if outputs == [] then None
    else if SameContract(outputs[0].lock, self) then Some(outputs[0])
    else FindOpticrum(outputs[1..], self)
  }

  /** First live cell at an outpoint. */
  function FindAt(cells: seq<LiveCell>, p: OutPoint): Option<LiveCell> {
    if cells == [] then None
    else if p.Matches(cells[0].outPoint) then Some(cells[0])
    else FindAt(cells[1..], p)
  }

  /** First live cell with a lock; on a transaction's inputs, the head of the
      script group of that lock. */
  function FindLocked(cells: seq<LiveCell>, lock: Script): Option<LiveCell> {
    if cells == [] then None
    else if cells[0].cell.lock == lock then Some(cells[0])
    else FindLocked(cells[1..], lock)
  }

  /** `FindOpticrum` takes the first output whose lock has the code hash of `self` and
      hash type `Type`. */
  lemma {:induction false} FindOpticrumFacts(outputs: seq<Cell>, self: Script) returns (i: nat)
    ensures i <= |outputs|
    ensures forall k | 0 <= k < i :: outputs[k].lock.codeHash != self.codeHash || !outputs[k].lock.hashType.Type?
    ensures if i == |outputs| then FindOpticrum(outputs, self) == None else
              && FindOpticrum(outputs, self) == Some(outputs[i])
              && outputs[i].lock.codeHash == self.codeHash && outputs[i].lock.hashType.Type?
  {
    i := 0;
    if outputs != [] && (outputs[0].lock.codeHash != self.codeHash || !outputs[0].lock.hashType.Type?) {
      i := FindOpticrumFacts(outputs[1..], self);
      i := i + 1;
    }
  }

  /** `FindAt` takes the first cell at the outpoint. */
  lemma {:induction false} FindAtFacts(cells: seq<LiveCell>, p: OutPoint) returns (i: nat)
    ensures i <= |cells|
    ensures forall k | 0 <= k < i :: cells[k].outPoint != p
    ensures if i == |cells| then FindAt(cells, p) == None else FindAt(cells, p) == Some(cells[i]) && cells[i].outPoint == p
  {
    i := 0;
    if cells != [] && cells[0].outPoint != p {
      i := FindAtFacts(cells[1..], p);
      i := i + 1;
    }
  }

  /** `FindLocked` takes the first cell under the lock. */
  lemma {:induction false} FindLockedFacts(cells: seq<LiveCell>, lock: Script) returns (i: nat)
    ensures i <= |cells|
    ensures forall k | 0 <= k < i :: cells[k].cell.lock != lock
    ensures if i == |cells| then FindLocked(cells, lock) == None else
              FindLocked(cells, lock) == Some(cells[i]) && cells[i].cell.lock == lock
  {
    i := 0;
    if cells != [] && cells[0].cell.lock != lock {
      i := FindLockedFacts(cells[1..], lock);
      i := i + 1;
    }
  }

  // ---------------------------------------------------------------------------
  // Capacity in numbers
  // ---------------------------------------------------------------------------

  /** What a cell keeps free, in shannons: 41 bytes for the capacity field and the lock,
      33 for a type script, and the args and data, at 10^8 each. */
  lemma CapacityInNumbers(c: Cell)
    ensures var args := |c.lock.args| + (if c.typeScript.Some? then 33 + |c.typeScript.value.args| else 0);
            var occupied := 100_000_000 * (41 + args + |c.data|);
            && c.Occupied() == occupied
            && (c.Stored() <==> c.capacity >= occupied)
            && c.Unoccupied() == if c.capacity >= occupied then c.capacity - occupied else 0
  {
  }
}
