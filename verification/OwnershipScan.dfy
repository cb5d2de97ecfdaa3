/**
 The ownership scan that looks at four packed territories at a time agrees with the plain
 scan. A territory is one 32-bit word: the owner in the low byte, the armies in the high half,
 a byte of padding between them. A mask is the set of its bits.
 */
module OwnershipScan {
  import opened RiskRules

  type Packed = w: int | 0 <= w < 0x1_0000_0000
  type SignedByte = p: int | -0x80 <= p < 0x80

  datatype Masks = Masks(mine: set<nat>, strong: set<nat>)

  function OwnerOf(w: Packed): SignedByte {
    if w % 0x100 < 0x80 then w % 0x100 else w % 0x100 - 0x100
  }

  function ArmiesOf(w: Packed): (units: nat)
    ensures units < 0x1_0000
  {
    w / 0x1_0000
  }

  /** The word of a territory; the padding byte may hold anything. */
  function Pack(owner: SignedByte, units: nat, padding: nat): (w: Packed)
    requires units < 0x1_0000 && padding < 0x100
  {
    (if owner < 0 then owner + 0x100 else owner) + padding * 0x100 + units * 0x1_0000
  }

  /** The fields are read back whatever the padding is. */
  lemma PackedFields(owner: SignedByte, units: nat, padding: nat)
    requires units < 0x1_0000 && padding < 0x100
    ensures OwnerOf(Pack(owner, units, padding)) == owner && ArmiesOf(Pack(owner, units, padding)) == units
  {
    var byte := if owner < 0 then owner + 0x100 else owner;
    var w := Pack(owner, units, padding);
    assert w == byte + 0x100 * (padding + 0x100 * units);
    assert w == (byte + padding * 0x100) + 0x1_0000 * units;
  }

  /** What the plain scan finds in the first `n` territories. */
  function Scanned(land: seq<Packed>, player: SignedByte, n: nat): Masks
    requires n <= |land|
  {
    Masks(set i: nat | i < n && OwnerOf(land[i]) == player, set i: nat | i < n && ArmiesOf(land[i]) > 1)
  }

  /** One lane's owner comparison: the low byte against the player's, as unsigned bytes. */
  predicate SameOwner(w: Packed, player: SignedByte) {
    w % 0x100 == if player < 0 then player + 0x100 else player
  }

  lemma LaneIsOwner(w: Packed, player: SignedByte)
    ensures SameOwner(w, player) <==> OwnerOf(w) == player
  {
  }

  /** The bits four lanes contribute at once. */
  function Lanes(land: seq<Packed>, player: SignedByte, i: nat): (m: Masks)
    requires i + 4 <= |land|
  {
    Masks(set k: nat | i <= k < i + 4 && SameOwner(land[k], player), set k: nat | i <= k < i + 4 && land[k] / 0x1_0000 > 1)
  }

  method ScanByFour(land: seq<Packed>, player: SignedByte) returns (masks: Masks)
    ensures masks == Scanned(land, player, |land|)
  {
    masks := Masks({}, {});
    var i: nat := 0;
    while i + 4 <= |land|
      invariant i <= |land| && masks == Scanned(land, player, i)
    {
      var lanes := Lanes(land, player, i);
      forall k: nat | i <= k < i + 4
        ensures SameOwner(land[k], player) <==> OwnerOf(land[k]) == player
      {
        LaneIsOwner(land[k], player);
      }
      masks := Masks(masks.mine + lanes.mine, masks.strong + lanes.strong);
      i := i + 4;
    }
    while i < |land|
      invariant i <= |land| && masks == Scanned(land, player, i)
    {
      masks := Masks(if OwnerOf(land[i]) == player then masks.mine + {i} else masks.mine,
                     if ArmiesOf(land[i]) > 1 then masks.strong + {i} else masks.strong);
      i := i + 1;
    }
  }

  /** On packed words of a map, the masks are the seat's territories and those with an army to spare. */
  lemma ScanFindsOwned(land: seq<Territory>, words: seq<Packed>, seat: SignedByte)
    requires |words| == |land|
    requires forall i :: 0 <= i < |land| ==> IsPacked(land[i], words[i])
    ensures forall t: nat :: t in Scanned(words, seat, |words|).mine <==> t in Owned(land, seat)
    ensures forall t: nat :: t in Scanned(words, seat, |words|).strong <==> t < |land| && land[t].units > 1
  {
    forall t | 0 <= t < |land|
      ensures OwnerOf(words[t]) == land[t].owner && ArmiesOf(words[t]) == land[t].units
    {
      assert IsPacked(land[t], words[t]);
      var padding: nat :| padding < 0x100 && words[t] == Pack(land[t].owner, land[t].units, padding);
      PackedFields(land[t].owner, land[t].units, padding);
    }
  }

  /** The word holds the territory, whatever its padding. */
  ghost predicate IsPacked(t: Territory, w: Packed) {
    -0x80 <= t.owner < 0x80 && exists padding: nat :: padding < 0x100 && w == Pack(t.owner, t.units, padding)
  }
}
