/**
 The address range behind a frozen index: one reservation without access rights, with the
 writable part placed inside so that an inaccessible page stays on each side of it.
 */
module OverlayMapping {
  import opened Bits
  import OverlayPages

  /** A reservation, the start of its writable part, and the shift of the page size it is accounted in. */
  datatype Reservation = Reservation(mapping: nat, reserved: nat, payload: nat, shift: nat)

  /** Huge pages are used when there are any and the overlay fills one; hugeShift is pageShift when there are none. */
  function GranularityShift(bytes: nat, pageShift: nat, hugeShift: nat): (shift: nat)
    ensures shift >= pageShift
  {
    if hugeShift > pageShift && bytes >= Pow2(hugeShift) then hugeShift else pageShift
  }

  /** Bytes asked of the system: the rounded overlay and two guards. */
  function ReservedBytes(bytes: nat, shift: nat): nat { OverlayPages.PageCeil(bytes, shift) + 2 * Pow2(shift) }

  /** The two overflow checks before the reservation, in words of w bits. */
  predicate Reservable(bytes: nat, shift: nat, w: nat) {
    && bytes + Pow2(shift) - 1 < Pow2(w)
    && 2 * Pow2(shift) < Pow2(w) && ReservedBytes(bytes, shift) < Pow2(w)
  }

  /** The start of the writable part: the first boundary past the first byte of the mapping. */
  function Payload(w: nat, mapping: nat, shift: nat): nat
    requires shift <= w
  {
    Pow2Mono(shift, w);
    And(mapping + 1 + Pow2(shift) - 1, Not(w, Pow2(shift) - 1))
  }

  /** The overlay is aligned and has a page nobody may touch before and after it. */
  ghost predicate Guarded(r: Reservation, bytes: nat, pageShift: nat) {
    && Low(r.payload, r.shift) == 0
    && r.mapping + Pow2(pageShift) <= r.payload
    && r.payload + OverlayPages.PageCeil(bytes, r.shift) + Pow2(pageShift) <= r.mapping + r.reserved
    && bytes <= OverlayPages.PageCeil(bytes, r.shift)
  }

  lemma GuardsStand(w: nat, mapping: nat, bytes: nat, pageShift: nat, shift: nat)
    requires pageShift <= shift <= w && Low(mapping, pageShift) == 0 && mapping + ReservedBytes(bytes, shift) < Pow2(w)
    ensures Guarded(Reservation(mapping, ReservedBytes(bytes, shift), Payload(w, mapping, shift), shift), bytes, pageShift)
  {
    hide Shl, Shr, Low, Pow2, And;
    var x := mapping + Pow2(shift);
    var payload := Payload(w, mapping, shift);
    AndNotMask(w, x, shift);
    Split(x, shift);
    Unsplit(Shr(x, shift), 0, shift);
    ShrShr(payload, pageShift, shift - pageShift);
    LowSmall(0, pageShift);
    MultiplesApart(mapping, payload, pageShift);
    Pow2Mono(pageShift, shift);
    Split(bytes + Pow2(shift) - 1, shift);
  }
}
