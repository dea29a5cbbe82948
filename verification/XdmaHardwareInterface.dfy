/** Lookups in the peripheral table, xdma_hardware_interface.c. */
module XdmaHardwareInterface {
  import opened UInt

  datatype HwIf = HwIf(periphId: uint8, transfer: uint8, ifId: uint8)

  const NO_INTERFACE: uint8 := 0xFF
  const MEMORY: uint8 := 0xFF

  /** The loops read entries 0 to last, both included; last comes from bits 16 to 23 of
      the type register and the table must reach that far. */
  predicate Covers(table: seq<HwIf>, last: nat) {
    last < |table| <= 0xFF
  }

  predicate Matches(e: HwIf, periphId: uint8, transfer: uint8) {
    e.periphId == periphId && e.transfer == transfer
  }

  /** The interface of the first matching entry from i on. */
  function InterfaceFrom(table: seq<HwIf>, last: nat, periphId: uint8, transfer: uint8, i: nat): uint8
    requires last < |table| && i <= last + 1
    decreases last + 1 - i
  {
    if i > last then NO_INTERFACE
    else if Matches(table[i], periphId, transfer) then table[i].ifId
    else InterfaceFrom(table, last, periphId, transfer, i + 1)
  }

  function Interface(table: seq<HwIf>, last: nat, periphId: uint8, transfer: uint8): uint8
    requires last < |table|
  {
    InterfaceFrom(table, last, periphId, transfer, 0)
  }

  /** Either some entry is the first to match and its interface is returned, or none
      matches and 0xFF is. */
  lemma InterfaceIsFirstMatch(table: seq<HwIf>, last: nat, periphId: uint8, transfer: uint8, k: nat)
    requires last < |table|
    ensures k <= last && Matches(table[k], periphId, transfer)
            && (forall j :: 0 <= j < k ==> !Matches(table[j], periphId, transfer))
        ==> Interface(table, last, periphId, transfer) == table[k].ifId
    ensures (forall j :: 0 <= j <= last ==> !Matches(table[j], periphId, transfer))
        ==> Interface(table, last, periphId, transfer) == NO_INTERFACE
  {
    if k <= last && Matches(table[k], periphId, transfer)
       && forall j :: 0 <= j < k ==> !Matches(table[j], periphId, transfer) {
      SkipNonMatching(table, last, periphId, transfer, k);
    }
    if forall j :: 0 <= j <= last ==> !Matches(table[j], periphId, transfer) {
      SkipNonMatching(table, last, periphId, transfer, last + 1);
    }
  }

  lemma {:induction false} SkipNonMatching(table: seq<HwIf>, last: nat, periphId: uint8, transfer: uint8, k: nat)
    requires last < |table| && k <= last + 1
    requires forall j :: 0 <= j < k ==> !Matches(table[j], periphId, transfer)
    ensures InterfaceFrom(table, last, periphId, transfer, 0) == InterfaceFrom(table, last, periphId, transfer, k)
  {
    if k > 0 { SkipNonMatching(table, last, periphId, transfer, k - 1); }
  }

  predicate IsValidated(table: seq<HwIf>, last: nat, periphId: uint8)
    requires last < |table|
  {
    periphId == MEMORY || exists i :: 0 <= i <= last && table[i].periphId == periphId
  }

  method GetChannelNumber(table: seq<HwIf>, last: nat, periphId: uint8, transfer: uint8) returns (ifId: uint8)
    requires Covers(table, last)
    ensures ifId == Interface(table, last, periphId, transfer)
  {
    var i := 0;
    while i <= last
      invariant i <= last + 1
      invariant forall j :: 0 <= j < i ==> !Matches(table[j], periphId, transfer)
    {
      if table[i].periphId == periphId && table[i].transfer == transfer {
        InterfaceIsFirstMatch(table, last, periphId, transfer, i);
        return table[i].ifId;
      }
      i := i + 1;
    }
    InterfaceIsFirstMatch(table, last, periphId, transfer, 0);
    ifId := NO_INTERFACE;
  }

  method IsValidatedPeripherOnDma(table: seq<HwIf>, last: nat, periphId: uint8) returns (valid: bool)
    requires Covers(table, last)
    ensures valid == IsValidated(table, last, periphId)
  {
    if periphId == MEMORY {
      return true;
    }
    var i := 0;
    while i <= last
      invariant i <= last + 1
      invariant forall j :: 0 <= j < i ==> table[j].periphId != periphId
    {
      if table[i].periphId == periphId {
        return true;
      }
      i := i + 1;
    }
    valid := false;
  }
}
