/**
 The use maps of the backing store's block files: one bit for each small block,
 eight to a byte, the files of one kind laid end to end.
 */
module BlockMap {

  type Byte = bv8

  const FILES := 6
  const MAP_SIZE := 128
  const BLOCKS_PER_FILE := 1024
  const BYTES := FILES * MAP_SIZE
  const BLOCKS := FILES * BLOCKS_PER_FILE

  function Mask(bit: nat): Byte
    requires bit < 8
  {
    match bit
    case 0 => 1
    case 1 => 2
    case 2 => 4
    case 3 => 8
    case 4 => 16
    case 5 => 32
    case 6 => 64
    case _ => 128
  }

  predicate IsSet(byte: Byte, bit: nat)
    requires bit < 8
  {
    byte & Mask(bit) != 0
  }

  function WithBit(byte: Byte, bit: nat): Byte
    requires bit < 8
  {
    byte | Mask(bit)
  }

  function WithoutBit(byte: Byte, bit: nat): Byte
    requires bit < 8
  {
    byte & !Mask(bit)
  }

  lemma BitSet(byte: Byte, bit: nat, other: nat)
    requires bit < 8 && other < 8
    ensures IsSet(WithBit(byte, bit), other) <==> other == bit || IsSet(byte, other)
    ensures IsSet(WithoutBit(byte, bit), other) <==> other != bit && IsSet(byte, other)
  {
    MaskIsNotZero(bit);
    if bit != other {
      MasksApart(bit, other);
    }
    hide Mask;
  }

  lemma MaskIsNotZero(bit: nat)
    requires bit < 8
    ensures Mask(bit) != 0
  {
  }

  lemma MasksApart(bit: nat, other: nat)
    requires bit < 8 && other < 8 && bit != other
    ensures Mask(bit) & Mask(other) == 0
  {
  }

  lemma FullByte(byte: Byte)
    ensures byte == 0xff <==> forall bit: nat :: bit < 8 ==> IsSet(byte, bit)
  {
    if forall bit: nat :: bit < 8 ==> IsSet(byte, bit) {
      assert IsSet(byte, 0) && IsSet(byte, 1) && IsSet(byte, 2) && IsSet(byte, 3);
      assert IsSet(byte, 4) && IsSet(byte, 5) && IsSet(byte, 6) && IsSet(byte, 7);
    }
  }

  // ----- addresses -----

  /** The file, the byte of its map and the bit of that byte that an address names. */
  function FileOf(address: nat): nat {
    (address / BLOCKS_PER_FILE) % 64
  }

  function IndexOf(address: nat): nat {
    (address % BLOCKS_PER_FILE) / 8
  }

  function BitOf(address: nat): nat {
    (address % BLOCKS_PER_FILE) % 8
  }

  /** The address given to a place in the maps. */
  function AddressOf(file: nat, index: nat, bit: nat): nat {
    (file * MAP_SIZE + index) * 8 + bit
  }

  /** What is written under an address is read, and cleared, at the very place that was allocated. */
  lemma AddressNamesItsPlace(file: nat, index: nat, bit: nat)
    requires file < FILES && index < MAP_SIZE && bit < 8
    ensures var a := AddressOf(file, index, bit);
            a < BLOCKS && FileOf(a) == file && IndexOf(a) == index && BitOf(a) == bit
  {
    var within := index * 8 + bit;
    assert AddressOf(file, index, bit) == file * BLOCKS_PER_FILE + within;
    assert AddressOf(file, index, bit) / BLOCKS_PER_FILE == file && AddressOf(file, index, bit) % BLOCKS_PER_FILE == within;
  }

  /** Every address below the number of blocks is that of a place in the maps. */
  lemma PlaceOfAddress(address: nat)
    requires address < BLOCKS
    ensures FileOf(address) < FILES && IndexOf(address) < MAP_SIZE && BitOf(address) < 8
    ensures AddressOf(FileOf(address), IndexOf(address), BitOf(address)) == address
    ensures FileOf(address) * MAP_SIZE + IndexOf(address) == address / 8 && BitOf(address) == address % 8
  {
  }

  // ----- a use map -----

  type UseMap = m: seq<Byte> | |m| == BYTES witness seq(BYTES, _ => 0)

  predicate Used(map_: UseMap, address: nat)
    requires address < BLOCKS
  {
    IsSet(map_[address / 8], address % 8)
  }

  predicate AllUsed(map_: UseMap) {
    forall a: nat :: a < BLOCKS ==> Used(map_, a)
  }

  /** The lowest address not in use. */
  ghost predicate FirstFree(map_: UseMap, address: nat) {
    address < BLOCKS && !Used(map_, address) && forall a: nat :: a < address ==> Used(map_, a)
  }

  /** The maps agree but at one address, which is (not) in use in the second. */
  ghost predicate Marks(a: UseMap, b: UseMap, address: nat, used: bool) {
    forall x: nat :: x < BLOCKS ==> (Used(b, x) <==> if x == address then used else Used(a, x))
  }

  function Marked(map_: UseMap, address: nat, used: bool): UseMap
    requires address < BLOCKS
  {
    map_[address / 8 := if used then WithBit(map_[address / 8], address % 8) else WithoutBit(map_[address / 8], address % 8)]
  }

  lemma MarksAt(map_: UseMap, address: nat, used: bool, x: nat)
    requires address < BLOCKS && x < BLOCKS
    ensures Used(Marked(map_, address, used), x) <==> if x == address then used else Used(map_, x)
  {
    if x / 8 == address / 8 {
      BitSet(map_[address / 8], address % 8, x % 8);
      SameByteAndBit(x, address);
    }
    hide WithBit;
    hide WithoutBit;
    hide IsSet;
  }

  lemma MarksOne(map_: UseMap, address: nat, used: bool)
    requires address < BLOCKS
    ensures Marks(map_, Marked(map_, address, used), address, used)
  {
    hide Used;
    hide Marked;
    forall x: nat | x < BLOCKS
      ensures Used(Marked(map_, address, used), x) <==> if x == address then used else Used(map_, x)
    {
      MarksAt(map_, address, used, x);
    }
  }

  lemma SameByteAndBit(x: nat, y: nat)
    requires x / 8 == y / 8
    ensures x % 8 == y % 8 <==> x == y
  {
  }

  // ----- allocating and freeing -----

  /** A full byte has no free block. */
  lemma FullByteIsUsed(map_: UseMap, byte: nat)
    requires byte < BYTES && map_[byte] == 0xff
    ensures forall x: nat :: x < BLOCKS && x / 8 == byte ==> Used(map_, x)
  {
    FullByte(map_[byte]);
  }

  /** A byte that is not full has a free block. */
  lemma NotFull(map_: UseMap, byte: nat)
    requires byte < BYTES && map_[byte] != 0xff
    ensures exists x: nat :: byte * 8 <= x < byte * 8 + 8 && !Used(map_, x)
  {
    FullByte(map_[byte]);
    var bit: nat :| bit < 8 && !IsSet(map_[byte], bit);
    UsedAt(map_, byte, bit);
    assert !Used(map_, byte * 8 + bit);
  }

  lemma UsedAt(map_: UseMap, byte: nat, bit: nat)
    requires byte < BYTES && bit < 8
    ensures byte * 8 + bit < BLOCKS
    ensures Used(map_, byte * 8 + bit) <==> map_[byte] & Mask(bit) != 0
  {
    hide Mask;
  }

  method SetBit(map_: array<Byte>, byte: nat, bit: nat)
    requires map_.Length == BYTES && byte < BYTES && bit < 8
    modifies map_
    ensures byte * 8 + bit < BLOCKS && map_[..] == Marked(old(map_[..]), byte * 8 + bit, true)
  {
    assert (byte * 8 + bit) / 8 == byte && (byte * 8 + bit) % 8 == bit;
    map_[byte] := map_[byte] | Mask(bit);
  }

  /** The first free block is taken into use; 0 stands for none. */
  method AllocBlock(map_: array<Byte>) returns (r: nat)
    requires map_.Length == BYTES
    modifies map_
    ensures r < BLOCKS
    ensures AllUsed(old(map_[..])) ==> r == 0 && map_[..] == old(map_[..])
    ensures !AllUsed(old(map_[..])) ==> FirstFree(old(map_[..]), r) && map_[..] == Marked(old(map_[..]), r, true)
  {
    ghost var was: UseMap := map_[..];
    hide Used;
    hide Mask;
    hide IsSet;
    hide Marked;
    for bf := 0 to FILES
      invariant map_[..] == was
      invariant forall x: nat :: x < bf * BLOCKS_PER_FILE ==> Used(was, x)
    {
      for idx := 0 to MAP_SIZE
        invariant map_[..] == was
        invariant forall x: nat :: x < (bf * MAP_SIZE + idx) * 8 ==> Used(was, x)
      {
        var i := bf * MAP_SIZE + idx;
        if map_[i] != 0xff {
          NotFull(was, i);
          for bit := 0 to 8
            invariant map_[..] == was
            invariant forall x: nat :: x < i * 8 + bit ==> Used(was, x)
          {
            UsedAt(was, i, bit);
            if map_[i] & Mask(bit) == 0 {
              SetBit(map_, i, bit);
              return AddressOf(bf, idx, bit);
            }
          }
        } else {
          FullByteIsUsed(was, i);
        }
      }
    }
    r := 0;
  }

  /** The block is free again. */
  method FreeBlock(map_: array<Byte>, address: nat)
    requires map_.Length == BYTES && address < BLOCKS
    modifies map_
    ensures map_[..] == Marked(old(map_[..]), address, false)
  {
    PlaceOfAddress(address);
    var i := FileOf(address) * MAP_SIZE + IndexOf(address);
    map_[i] := map_[i] & !Mask(BitOf(address));
  }
}
