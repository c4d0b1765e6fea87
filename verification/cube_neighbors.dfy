/*
 * The emulated cube's neighbour sensors: which sides of this cube touch
 * which sides of which other cubes, and the neighbour-input pin of the
 * CPU's port 1.
 */
module CubeNeighbors {

  /** Neighbors::NUM_SIDES: TOP, LEFT, BOTTOM, RIGHT. */
  const NUM_SIDES: nat := 4

  /** Neighbors::PIN_IN, bit 6 of the port: the shared receiver's output. */
  const PIN_IN_BIT: bv8 := 6
  const PIN_IN: bv8 := 0x40

  /**
   * Neighbors::PORT is REG_P1: special function register 0x90, stored at
   * offset 0x10 of the CPU's 128-entry SFR file.
   */
  const PORT: nat := 0x10
  const SFR_COUNT: nat := 128

  /** Bit k of a 32-bit contact mask. */
  predicate HasBit(m: bv32, k: bv32)
    requires k < 32
  {
    (m >> k) & 1 == 1
  }

  /** Bit k of an 8-bit register. */
  predicate HasBit8(b: bv8, k: bv8)
    requires k < 8
  {
    (b >> k) & 1 == 1
  }

  /** `m |= 1 << k`: bit k becomes set, every other bit keeps its value. */
  function SetBit(m: bv32, k: bv32): (r: bv32)
    requires k < 32
    ensures HasBit(r, k)
    ensures forall j: bv32 :: j < 32 && j != k ==> (HasBit(r, j) <==> HasBit(m, j))
  {
    SetBitKeepsOthers(m, k);
    m | (1 << k)
  }

  /** `m &= ~(1 << k)`: bit k becomes clear, every other bit keeps its value. */
  function ClearBit(m: bv32, k: bv32): (r: bv32)
    requires k < 32
    ensures !HasBit(r, k)
    ensures forall j: bv32 :: j < 32 && j != k ==> (HasBit(r, j) <==> HasBit(m, j))
  {
    ClearBitKeepsOthers(m, k);
    m & !(1 << k)
  }

  lemma SetBitKeepsOthers(m: bv32, k: bv32)
    requires k < 32
    ensures forall j: bv32 :: j < 32 && j != k ==> (HasBit(m | (1 << k), j) <==> HasBit(m, j))
  {
    forall j: bv32 | j < 32 && j != k
      ensures HasBit(m | (1 << k), j) <==> HasBit(m, j)
    {
      OtherBitOfSet(m, k, j);
    }
  }

  lemma ClearBitKeepsOthers(m: bv32, k: bv32)
    requires k < 32
    ensures forall j: bv32 :: j < 32 && j != k ==> (HasBit(m & !(1 << k), j) <==> HasBit(m, j))
  {
    forall j: bv32 | j < 32 && j != k
      ensures HasBit(m & !(1 << k), j) <==> HasBit(m, j)
    {
      OtherBitOfClear(m, k, j);
    }
  }

  lemma OtherBitOfSet(m: bv32, k: bv32, j: bv32)
    requires k < 32 && j < 32 && j != k
    ensures HasBit(m | (1 << k), j) <==> HasBit(m, j)
  {
  }

  lemma OtherBitOfClear(m: bv32, k: bv32, j: bv32)
    requires k < 32 && j < 32 && j != k
    ensures HasBit(m & !(1 << k), j) <==> HasBit(m, j)
  {
  }

  /** Setting or clearing a bit twice is the same as doing it once. */
  lemma SetClearIdempotent(m: bv32, k: bv32)
    requires k < 32
    ensures SetBit(SetBit(m, k), k) == SetBit(m, k)
    ensures ClearBit(ClearBit(m, k), k) == ClearBit(m, k)
  {
  }

  /** Set then clear leaves the bit clear; clearing a set bit and setting it again restores the mask. */
  lemma SetClearInverse(m: bv32, k: bv32)
    requires k < 32
    ensures !HasBit(ClearBit(SetBit(m, k), k), k)
    ensures HasBit(m, k) ==> SetBit(ClearBit(m, k), k) == m
  {
  }

  /** `b |= PIN_IN`: bit 6 becomes set, the port's other pins keep their values. */
  function SetPinIn(b: bv8): (r: bv8)
    ensures HasBit8(r, PIN_IN_BIT)
    ensures forall j: bv8 :: j < 8 && j != PIN_IN_BIT ==> (HasBit8(r, j) <==> HasBit8(b, j))
  {
    b | PIN_IN
  }

  /** `b &= ~PIN_IN`: bit 6 becomes clear, the port's other pins keep their values. */
  function ClearPinIn(b: bv8): (r: bv8)
    ensures !HasBit8(r, PIN_IN_BIT)
    ensures forall j: bv8 :: j < 8 && j != PIN_IN_BIT ==> (HasBit8(r, j) <==> HasBit8(b, j))
  {
    b & !PIN_IN
  }

  /** A second pulse changes nothing; clearing after a pulse is clearing alone. */
  lemma PinInLaws(b: bv8)
    ensures SetPinIn(SetPinIn(b)) == SetPinIn(b)
    ensures ClearPinIn(SetPinIn(b)) == ClearPinIn(b)
    ensures !HasBit8(b, PIN_IN_BIT) ==> ClearPinIn(b) == b
  {
  }

  /** The slice of the emulated 8051 (CPU::em8051) that the neighbour code touches. */
  class Em8051 {
    var mSFR: array<bv8>
    var needTimerEdgeCheck: bool

    constructor ()
      ensures fresh(mSFR) && mSFR.Length == SFR_COUNT && !needTimerEdgeCheck
    {
      mSFR := new bv8[SFR_COUNT];
      needTimerEdgeCheck := false;
    }
  }

  /**
   * Neighbors::clearNeighborInput: right after timer edges are handled,
   * drop the neighbour input if it is raised, and ask for another edge
   * check; if it is already low, nothing changes.
   */
  method ClearNeighborInput(cpu: Em8051)
    requires PORT < cpu.mSFR.Length
    modifies cpu`needTimerEdgeCheck, cpu.mSFR
    ensures HasBit8(old(cpu.mSFR[PORT]), PIN_IN_BIT) ==>
              cpu.mSFR[..] == old(cpu.mSFR[..])[PORT := ClearPinIn(old(cpu.mSFR[PORT]))] &&
              cpu.needTimerEdgeCheck
    ensures !HasBit8(old(cpu.mSFR[PORT]), PIN_IN_BIT) ==>
              cpu.mSFR[..] == old(cpu.mSFR[..]) && cpu.needTimerEdgeCheck == old(cpu.needTimerEdgeCheck)
  {
    if cpu.mSFR[PORT] & PIN_IN != 0 {
      cpu.mSFR[PORT] := cpu.mSFR[PORT] & !PIN_IN;
      cpu.needTimerEdgeCheck := true;
    }
  }

  /** Neighbors::receivedPulse: raise the neighbour input and ask for an edge check. */
  method ReceivedPulse(cpu: Em8051)
    requires PORT < cpu.mSFR.Length
    modifies cpu`needTimerEdgeCheck, cpu.mSFR
    ensures cpu.mSFR[..] == old(cpu.mSFR[..])[PORT := SetPinIn(old(cpu.mSFR[PORT]))]
    ensures cpu.needTimerEdgeCheck
  {
    cpu.mSFR[PORT] := cpu.mSFR[PORT] | PIN_IN;
    cpu.needTimerEdgeCheck := true;
  }

  /** Two pulses in a row leave the CPU as one pulse does. */
  method ReceivedPulseTwice(cpu: Em8051)
    requires PORT < cpu.mSFR.Length
    modifies cpu`needTimerEdgeCheck, cpu.mSFR
    ensures cpu.mSFR[..] == old(cpu.mSFR[..])[PORT := SetPinIn(old(cpu.mSFR[PORT]))]
    ensures cpu.needTimerEdgeCheck
  {
    ReceivedPulse(cpu);
    ReceivedPulse(cpu);
    PinInLaws(old(cpu.mSFR[PORT]));
  }

  class Neighbors {
    /** mySides[mySide].otherSides[otherSide]: bit c set when cube c's otherSide touches mySide. */
    var mySides: array2<bv32>
    var inputMask: bv8

    ghost predicate Valid()
      reads this
    {
      mySides.Length0 == NUM_SIDES && mySides.Length1 == NUM_SIDES
    }

    constructor ()
      ensures Valid() && fresh(mySides)
    {
      mySides := new bv32[NUM_SIDES, NUM_SIDES];
    }

    /** Neighbors::init: no side of this cube touches anything. */
    method Init()
      requires Valid()
      modifies mySides
      ensures Valid()
      ensures forall i, j :: 0 <= i < NUM_SIDES && 0 <= j < NUM_SIDES ==> mySides[i, j] == 0
    {
      forall i, j | 0 <= i < NUM_SIDES && 0 <= j < NUM_SIDES {
        mySides[i, j] := 0;
      }
    }

    /**
     * Neighbors::setContact: mark side `otherSide` of cube `otherCube` as
     * in range of side `mySide` of this cube.
     */
    method SetContact(mySide: nat, otherSide: nat, otherCube: bv32)
      requires Valid() && mySide < NUM_SIDES && otherSide < NUM_SIDES && otherCube < 32
      modifies mySides
      ensures Valid()
      ensures mySides[mySide, otherSide] == SetBit(old(mySides[mySide, otherSide]), otherCube)
      ensures forall i, j :: 0 <= i < NUM_SIDES && 0 <= j < NUM_SIDES && (i != mySide || j != otherSide) ==>
                mySides[i, j] == old(mySides[i, j])
    {
      mySides[mySide, otherSide] := mySides[mySide, otherSide] | (1 << otherCube);
    }

    /** Neighbors::clearContact: mark the same pair of sensors as out of range. */
    method ClearContact(mySide: nat, otherSide: nat, otherCube: bv32)
      requires Valid() && mySide < NUM_SIDES && otherSide < NUM_SIDES && otherCube < 32
      modifies mySides
      ensures Valid()
      ensures mySides[mySide, otherSide] == ClearBit(old(mySides[mySide, otherSide]), otherCube)
      ensures forall i, j :: 0 <= i < NUM_SIDES && 0 <= j < NUM_SIDES && (i != mySide || j != otherSide) ==>
                mySides[i, j] == old(mySides[i, j])
    {
      mySides[mySide, otherSide] := mySides[mySide, otherSide] & !(1 << otherCube);
    }

    /**
     * Neighbors::isSideReceiving: bit `side` of the input mask. The mask is
     * promoted to int before the shift, so sides 8 to 31 read as clear.
     */
    function IsSideReceiving(side: bv32): (r: bool)
      reads this
      requires side < 32
      ensures r <==> side < 8 && inputMask | (1 << (side as bv8)) == inputMask
    {
      1 & ((inputMask as bv32) >> side) == 1
    }
  }
}
