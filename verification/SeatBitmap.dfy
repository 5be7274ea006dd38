/**
 * The per-schedule bitmap: two bits a seat, written with BITFIELD and read by
 * two decoders, the room snapshot of the socket server and the seat map of the
 * HTTP server. Both are proved against the states last written.
 */
module SeatBitmap {
  import opened Wrappers

  datatype SeatState = Available | Locked | Booked

  datatype Write = Write(seat: int, state: SeatState)

  type Byte = b: int | 0 <= b < 256 witness 0

  const I32_MAX := 0x7fff_ffff
  const REDIS_STRING_LIMIT := 512 * 1024 * 1024

  // -------------------------------------------------------------- the writer

  /** `(byte >> (6 - slot * 2)) & 0b11` */
  function SlotOf(b: Byte, slot: nat): (v: int)
    requires slot < 4
    ensures 0 <= v < 4
  {
    (if slot == 0 then b / 64 else if slot == 1 then b / 16 else if slot == 2 then b / 4 else b) % 4
  }

  function Pack(f0: int, f1: int, f2: int, f3: int): Byte
    requires 0 <= f0 < 4 && 0 <= f1 < 4 && 0 <= f2 < 4 && 0 <= f3 < 4
  {
    64 * f0 + 16 * f1 + 4 * f2 + f3
  }

  /** The byte with one of its four fields replaced, the others kept. */
  function WithSlot(b: Byte, slot: nat, v: int): Byte
    requires slot < 4 && 0 <= v < 4
  {
    Pack(if slot == 0 then v else SlotOf(b, 0), if slot == 1 then v else SlotOf(b, 1),
         if slot == 2 then v else SlotOf(b, 2), if slot == 3 then v else SlotOf(b, 3))
  }

  lemma Unpack(f0: int, f1: int, f2: int, f3: int)
    requires 0 <= f0 < 4 && 0 <= f1 < 4 && 0 <= f2 < 4 && 0 <= f3 < 4
    ensures var b := Pack(f0, f1, f2, f3);
            SlotOf(b, 0) == f0 && SlotOf(b, 1) == f1 && SlotOf(b, 2) == f2 && SlotOf(b, 3) == f3
  {
    var b := Pack(f0, f1, f2, f3);
    assert b / 64 == f0;
    assert b / 16 == 4 * f0 + f1;
    assert b / 4 == 16 * f0 + 4 * f1 + f2;
  }

  lemma SlotAfterWrite(b: Byte, slot: nat, v: int, other: nat)
    requires slot < 4 && 0 <= v < 4 && other < 4
    ensures SlotOf(WithSlot(b, slot, v), other) == if other == slot then v else SlotOf(b, other)
  {
    Unpack(if slot == 0 then v else SlotOf(b, 0), if slot == 1 then v else SlotOf(b, 1),
           if slot == 2 then v else SlotOf(b, 2), if slot == 3 then v else SlotOf(b, 3));
    assert other == 0 || other == 1 || other == 2 || other == 3;
  }

  function Extended(bitmap: seq<Byte>, n: nat): seq<Byte> {
    if |bitmap| >= n then bitmap else bitmap + seq(n - |bitmap|, _ => 0)
  }

  /** BITFIELD SET u2 at offset `seat * 2`; the string grows with zero bytes. */
  function SetField(bitmap: seq<Byte>, seat: nat, v: int): seq<Byte>
    requires 0 <= v < 4
  {
    var grown := Extended(bitmap, seat / 4 + 1);
    grown[seat / 4 := WithSlot(grown[seat / 4], seat % 4, v)]
  }

  function Field(bitmap: seq<Byte>, seat: nat): int {
    if seat / 4 < |bitmap| then SlotOf(bitmap[seat / 4], seat % 4) else 0
  }

  lemma ZeroByte(slot: nat)
    requires slot < 4
    ensures SlotOf(0, slot) == 0
  {
  }

  lemma FieldAfterSet(bitmap: seq<Byte>, seat: nat, v: int, other: nat)
    requires 0 <= v < 4
    ensures Field(SetField(bitmap, seat, v), other) == if other == seat then v else Field(bitmap, other)
  {
    var grown := Extended(bitmap, seat / 4 + 1);
    var i, j := seat / 4, other / 4;
    assert seat == 4 * i + seat % 4 && other == 4 * j + other % 4;
    if i == j {
      SlotAfterWrite(grown[i], seat % 4, v, other % 4);
    }
    if j < |grown| && j >= |bitmap| {
      assert grown[j] == 0;
      ZeroByte(other % 4);
    }
  }

  function Code(state: SeatState): int {
    match state
    case Available => 0
    case Locked => 1
    case Booked => 2
  }

  /** A state write; negative seat ids are ignored. */
  function SetSeatState(bitmap: seq<Byte>, w: Write): seq<Byte> {
    if w.seat < 0 then bitmap else SetField(bitmap, w.seat, Code(w.state))
  }

  function AfterWrites(writes: seq<Write>): seq<Byte> {
    if writes == [] then [] else SetSeatState(AfterWrites(writes[..|writes| - 1]), writes[|writes| - 1])
  }

  /** Redis's bit at an offset: bytes in order, and in each the highest bit first. */
  function BitAt(bitmap: seq<Byte>, offset: nat): int {
    if offset / 8 >= |bitmap| then 0
    else
      var b := bitmap[offset / 8];
      (match offset % 8
       case 0 => b / 128
       case 1 => b / 64
       case 2 => b / 32
       case 3 => b / 16
       case 4 => b / 8
       case 5 => b / 4
       case 6 => b / 2
       case _ => b) % 2
  }

  /** A seat's field is the two bits at offset `seat * 2`, the higher first. */
  lemma FieldIsTwoBits(bitmap: seq<Byte>, seat: nat)
    ensures Field(bitmap, seat) == 2 * BitAt(bitmap, 2 * seat) + BitAt(bitmap, 2 * seat + 1)
  {
    assert 2 * seat / 8 == seat / 4 && (2 * seat + 1) / 8 == seat / 4;
    assert 2 * seat % 8 == 2 * (seat % 4) && (2 * seat + 1) % 8 == 2 * (seat % 4) + 1;
    if seat / 4 < |bitmap| {
      SlotIsTwoBits(bitmap[seat / 4]);
    }
  }

  lemma SlotIsTwoBits(b: Byte)
    ensures SlotOf(b, 0) == 2 * (b / 128 % 2) + b / 64 % 2 && SlotOf(b, 1) == 2 * (b / 32 % 2) + b / 16 % 2
    ensures SlotOf(b, 2) == 2 * (b / 8 % 2) + b / 4 % 2 && SlotOf(b, 3) == 2 * (b / 2 % 2) + b % 2
  {
    HalfAndQuarter(b / 64);
    HalfAndQuarter(b / 16);
    HalfAndQuarter(b / 4);
    HalfAndQuarter(b);
    assert b / 64 / 2 == b / 128 && b / 16 / 2 == b / 32 && b / 4 / 2 == b / 8;
  }

  lemma HalfAndQuarter(n: nat)
    ensures n % 4 == 2 * (n / 2 % 2) + n % 2
  {
  }

  /** 00 available, 01 locked, 10 booked: what a last write leaves in its seat's two bits. */
  lemma BitsAreState(writes: seq<Write>, seat: nat)
    ensures var high, low := BitAt(AfterWrites(writes), 2 * seat), BitAt(AfterWrites(writes), 2 * seat + 1);
            match LastWritten(writes, seat)
            case Available => high == 0 && low == 0
            case Locked => high == 0 && low == 1
            case Booked => high == 1 && low == 0
  {
    FieldIsLastWritten(writes, seat);
    FieldIsTwoBits(AfterWrites(writes), seat);
    BitIsBinary(AfterWrites(writes), 2 * seat);
    BitIsBinary(AfterWrites(writes), 2 * seat + 1);
  }

  lemma BitIsBinary(bitmap: seq<Byte>, offset: nat)
    ensures 0 <= BitAt(bitmap, offset) <= 1
  {
  }

  // ------------------------------------------------------------ the decoders

  function FromBitmap(v: int): SeatState {
    if v == 1 then Locked else if v == 2 then Booked else Available
  }

  /** `as i32` */
  function AsI32(n: nat): int {
    (n + 0x8000_0000) % 0x1_0000_0000 - 0x8000_0000
  }

  function SlotSnapshot(byteIndex: nat, b: Byte, slot: nat): seq<(int, SeatState)>
    requires slot < 4
  {
    var state := FromBitmap(SlotOf(b, slot));
    if state != Available then [(AsI32(byteIndex * 4 + slot), state)] else []
  }

  function ByteSnapshots(byteIndex: nat, b: Byte, slots: nat): seq<(int, SeatState)>
    requires slots <= 4
  {
    if slots == 0 then [] else ByteSnapshots(byteIndex, b, slots - 1) + SlotSnapshot(byteIndex, b, slots - 1)
  }

  function BitmapSnapshots(bitmap: seq<Byte>): seq<(int, SeatState)> {
    if bitmap == [] then []
    else
      var k := |bitmap| - 1;
      BitmapSnapshots(bitmap[..k]) + ByteSnapshots(k, bitmap[k], 4)
  }

  /** The other decoder, which answers for one seat and only inside the bitmap. */
  function BitmapSeatStatus(bitmap: seq<Byte>, seat: int): Option<SeatState> {
    if seat < 0 then None
    else
      var bitOffset := seat * 2;
      if bitOffset / 8 >= |bitmap| then None
      else
        var shift := 6 - bitOffset % 8;
        var b := bitmap[bitOffset / 8];
        var shifted := if shift == 6 then b / 64 else if shift == 4 then b / 16 else if shift == 2 then b / 4 else b;
        Some(FromBitmap(shifted % 4))
  }

  // ---------------------------------------------------------------- theorems

  /** The state last written for a seat. */
  function LastWritten(writes: seq<Write>, seat: nat): SeatState {
    if writes == [] then Available
    else if writes[|writes| - 1].seat == seat then writes[|writes| - 1].state
    else LastWritten(writes[..|writes| - 1], seat)
  }

  lemma {:induction false} FieldIsLastWritten(writes: seq<Write>, seat: nat)
    ensures Field(AfterWrites(writes), seat) == Code(LastWritten(writes, seat))
  {
    if writes != [] {
      var w := writes[|writes| - 1];
      FieldIsLastWritten(writes[..|writes| - 1], seat);
      if w.seat >= 0 {
        FieldAfterSet(AfterWrites(writes[..|writes| - 1]), w.seat, Code(w.state), seat);
      }
    }
  }

  predicate ListedIn(snap: seq<(int, SeatState)>, seat: int, state: SeatState) {
    (seat, state) in snap
  }

  ghost predicate Ascending(snap: seq<(int, SeatState)>, lo: int, hi: int) {
    && (forall i :: 0 <= i < |snap| ==> lo <= snap[i].0 < hi)
    && (forall i, j :: 0 <= i < j < |snap| ==> snap[i].0 < snap[j].0)
  }

  lemma AscendingConcat(a: seq<(int, SeatState)>, b: seq<(int, SeatState)>, lo: int, mid: int, hi: int)
    requires Ascending(a, lo, mid) && Ascending(b, mid, hi) && lo <= mid <= hi
    ensures Ascending(a + b, lo, hi)
  {
  }

  lemma {:induction false} ByteList(k: nat, b: Byte, slots: nat)
    requires slots <= 4 && k < REDIS_STRING_LIMIT
    ensures Ascending(ByteSnapshots(k, b, slots), 4 * k, 4 * k + slots)
    ensures forall seat: nat, state :: ListedIn(ByteSnapshots(k, b, slots), seat, state) <==>
              state != Available && 4 * k <= seat < 4 * k + slots && state == FromBitmap(SlotOf(b, seat - 4 * k))
  {
    if slots > 0 {
      ByteList(k, b, slots - 1);
      var low, top := ByteSnapshots(k, b, slots - 1), SlotSnapshot(k, b, slots - 1);
      AscendingConcat(low, top, 4 * k, 4 * k + slots - 1, 4 * k + slots);
      forall seat: nat, state
        ensures ListedIn(low + top, seat, state) <==>
                state != Available && 4 * k <= seat < 4 * k + slots && state == FromBitmap(SlotOf(b, seat - 4 * k))
      {
        SlotList(k, b, slots - 1, seat, state);
        ListedInConcat(low, top, seat, state);
      }
    }
  }

  lemma ListedInConcat(a: seq<(int, SeatState)>, b: seq<(int, SeatState)>, seat: int, state: SeatState)
    ensures ListedIn(a + b, seat, state) <==> ListedIn(a, seat, state) || ListedIn(b, seat, state)
  {
  }

  lemma SlotList(k: nat, b: Byte, slot: nat, seat: nat, state: SeatState)
    requires slot < 4 && k < REDIS_STRING_LIMIT
    ensures ListedIn(SlotSnapshot(k, b, slot), seat, state) <==>
            state != Available && seat == 4 * k + slot && state == FromBitmap(SlotOf(b, slot))
  {
    assert AsI32(k * 4 + slot) == 4 * k + slot;
  }

  /** What the list holds, for any bitmap within Redis's limit. */
  lemma {:induction false} SnapshotsList(bitmap: seq<Byte>)
    requires |bitmap| <= REDIS_STRING_LIMIT
    ensures Ascending(BitmapSnapshots(bitmap), 0, 4 * |bitmap|)
    ensures forall seat: nat, state :: ListedIn(BitmapSnapshots(bitmap), seat, state) <==>
              state != Available && seat / 4 < |bitmap| && state == FromBitmap(Field(bitmap, seat))
  {
    if bitmap != [] {
      var k := |bitmap| - 1;
      SnapshotsList(bitmap[..k]);
      ByteList(k, bitmap[k], 4);
      var low, top := BitmapSnapshots(bitmap[..k]), ByteSnapshots(k, bitmap[k], 4);
      AscendingConcat(low, top, 0, 4 * k, 4 * |bitmap|);
      forall seat: nat, state
        ensures ListedIn(low + top, seat, state) <==>
                state != Available && seat / 4 < |bitmap| && state == FromBitmap(Field(bitmap, seat))
      {
        assert ListedIn(low + top, seat, state) <==> ListedIn(low, seat, state) || ListedIn(top, seat, state);
        assert seat == 4 * (seat / 4) + seat % 4;
        if seat / 4 < k {
          assert Field(bitmap[..k], seat) == Field(bitmap, seat);
        }
      }
    }
  }

  lemma {:induction false} SizeBounded(writes: seq<Write>)
    requires forall i :: 0 <= i < |writes| ==> writes[i].seat <= I32_MAX
    ensures |AfterWrites(writes)| <= REDIS_STRING_LIMIT
    ensures forall seat: nat :: LastWritten(writes, seat) != Available ==> seat / 4 < |AfterWrites(writes)|
  {
    if writes != [] {
      SizeBounded(writes[..|writes| - 1]);
    }
  }

  /**
   * After any writes for i32 seat ids, the room snapshot lists exactly the
   * seats whose last written state is locked or booked, with that state, in
   * ascending order and each once.
   */
  lemma SnapshotIsLastWritten(writes: seq<Write>)
    requires forall i :: 0 <= i < |writes| ==> writes[i].seat <= I32_MAX
    ensures var snap := BitmapSnapshots(AfterWrites(writes));
            && (forall seat: nat, state :: ListedIn(snap, seat, state) <==> state != Available && state == LastWritten(writes, seat))
            && (forall i :: 0 <= i < |snap| ==> snap[i].0 >= 0)
            && (forall i, j :: 0 <= i < j < |snap| ==> snap[i].0 < snap[j].0)
  {
    var bitmap := AfterWrites(writes);
    SizeBounded(writes);
    SnapshotsList(bitmap);
    forall seat: nat, state
      ensures ListedIn(BitmapSnapshots(bitmap), seat, state) <==> state != Available && state == LastWritten(writes, seat)
    {
      FieldIsLastWritten(writes, seat);
    }
  }

  /** The two decoders agree on every seat inside the bitmap; outside, and below zero, only one answers. */
  lemma DecodersAgree(bitmap: seq<Byte>, seat: int)
    requires |bitmap| <= REDIS_STRING_LIMIT
    ensures BitmapSeatStatus(bitmap, seat).Some? <==> 0 <= seat < 4 * |bitmap|
    ensures 0 <= seat < 4 * |bitmap| ==>
              forall state :: state != Available ==>
                (BitmapSeatStatus(bitmap, seat) == Some(state) <==> ListedIn(BitmapSnapshots(bitmap), seat, state))
    ensures 0 <= seat < 4 * |bitmap| ==>
              (BitmapSeatStatus(bitmap, seat) == Some(Available) <==> forall state :: !ListedIn(BitmapSnapshots(bitmap), seat, state))
  {
    SnapshotsList(bitmap);
    if 0 <= seat < 4 * |bitmap| {
      assert seat * 2 / 8 == seat / 4 && seat * 2 % 8 == 2 * (seat % 4);
      assert BitmapSeatStatus(bitmap, seat) == Some(FromBitmap(Field(bitmap, seat)));
      var state := FromBitmap(Field(bitmap, seat));
      assert ListedIn(BitmapSnapshots(bitmap), seat, state) <==> state != Available;
    }
  }

  /** The cast to i32 keeps every seat number of a bitmap exactly up to the size limit of a Redis string. */
  lemma SeatNumbersFitIff(bytes: nat)
    ensures (forall seat: nat :: seat < 4 * bytes ==> AsI32(seat) == seat) <==> bytes <= REDIS_STRING_LIMIT
  {
    if bytes > REDIS_STRING_LIMIT {
      var seat: nat := 4 * REDIS_STRING_LIMIT;
      assert AsI32(seat) == -0x8000_0000;
    }
  }
}
