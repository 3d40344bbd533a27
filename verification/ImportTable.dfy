/** The bounded walk over a loaded image's import tables that finds the one slot to patch. */
module ImportTable {
  import opened Results
  import opened Bytes

  const MAX_DWORD := 0xFFFF_FFFF
  const DESCRIPTOR := 20
  const THUNK := 8
  const HINT := 2
  const ORDINAL_FLAG := 0x8000_0000_0000_0000

  /** The bytes compared against an import's name, terminator included. */
  const LABEL := "RegisterApplicationRestart\0"

  /** A mapped image: its size fits in a double word. */
  type Image = s: seq<Byte> | |s| <= MAX_DWORD witness []

  predicate InImage(rva: int, bytes: int, size: int) {
    rva != 0 && rva < size && bytes <= size - rva
  }

  function Little(image: Image, at: nat, width: nat): (n: nat)
    requires at + width <= |image|
    decreases width
  {
    if width == 0 then 0 else image[at] + 256 * Little(image, at + 1, width - 1)
  }

  lemma {:induction false} LittleFits(image: Image, at: nat, width: nat)
    requires at + width <= |image|
    ensures Little(image, at, width) < Power256(width)
    decreases width
  {
    if width > 0 { LittleFits(image, at + 1, width - 1); }
  }

  function Dword(image: Image, at: nat): (n: nat)
    requires at + 4 <= |image|
    ensures n <= MAX_DWORD
  {
    LittleFits(image, at, 4);
    assert Power256(4) == MAX_DWORD + 1 by { assert Power256(2) == 65536; }
    Little(image, at, 4)
  }

  function Quad(image: Image, at: nat): nat
    requires at + 8 <= |image|
  {
    Little(image, at, 8)
  }

  /** The import directory: where the descriptors are and how many bytes they take. */
  datatype Directory = Directory(rva: nat, bytes: nat)

  datatype Descriptor = Descriptor(names: nat, name: nat, slots: nat)

  function DescriptorAt(image: Image, dir: Directory, d: nat): (e: Descriptor)
    requires InImage(dir.rva, dir.bytes, |image|) && d < dir.bytes / DESCRIPTOR
    ensures e.names <= MAX_DWORD && e.slots <= MAX_DWORD
  {
    var at := dir.rva + d * DESCRIPTOR;
    Descriptor(Dword(image, at), Dword(image, at + 12), Dword(image, at + 16))
  }

  // ----- what the tables say

  /** Both arrays of a descriptor can be read at index `i` without wrapping or leaving the image. */
  predicate Readable(image: Image, e: Descriptor, i: nat) {
    var offset := i * THUNK;
    && offset <= MAX_DWORD - e.names && offset <= MAX_DWORD - e.slots
    && InImage(e.names + offset, THUNK, |image|) && InImage(e.slots + offset, THUNK, |image|)
  }

  function NameThunk(image: Image, e: Descriptor, i: nat): nat
    requires Readable(image, e, i)
  {
    Quad(image, e.names + i * THUNK)
  }

  lemma {:induction false} LittleIsItsValue(image: Image, at: nat, width: nat)
    requires at + width <= |image|
    ensures Little(image, at, width) == ValueOf(image[at..at + width])
    decreases width
  {
    if width > 0 {
      LittleIsItsValue(image, at + 1, width - 1);
      assert image[at..at + width][1..] == image[at + 1..at + width];
    }
  }

  /** Numbers are little-endian, and a descriptor's three fields stand at offsets 0, 12 and 16 of its twenty bytes. */
  lemma LayoutIsExact(image: Image, dir: Directory, d: nat)
    requires InImage(dir.rva, dir.bytes, |image|) && d < dir.bytes / 20
    ensures var at := dir.rva + 20 * d;
            && at + 20 <= |image|
            && DescriptorAt(image, dir, d)
               == Descriptor(ValueOf(image[at..at + 4]), ValueOf(image[at + 12..at + 16]), ValueOf(image[at + 16..at + 20]))
  {
    var at := dir.rva + 20 * d;
    LittleIsItsValue(image, at, 4);
    LittleIsItsValue(image, at + 12, 4);
    LittleIsItsValue(image, at + 16, 4);
  }

  /** A thunk has eight bytes in either array, all of them inside the image. */
  lemma ThunkIsExact(image: Image, e: Descriptor, i: nat)
    requires Readable(image, e, i)
    ensures var at := e.names + 8 * i;
            && 0 < at && at + 8 <= |image| && 0 < e.slots + 8 * i && e.slots + 8 * i + 8 <= |image|
            && NameThunk(image, e, i) == ValueOf(image[at..at + 8]) && Slot(e, i) == e.slots + 8 * i
            && Quad(image, Slot(e, i)) == ValueOf(image[e.slots + 8 * i..e.slots + 8 * i + 8])
  {
    LittleIsItsValue(image, e.names + 8 * i, 8);
    LittleIsItsValue(image, e.slots + 8 * i, 8);
  }

  /** A thunk imports the function exactly if, two bytes past where it points, the name stands with its terminator. */
  lemma WantedIsExact(image: Image, e: Descriptor, i: nat)
    requires Readable(image, e, i)
    ensures var rva, name := NameThunk(image, e, i), "RegisterApplicationRestart";
            Wanted(image, e, i) <==>
              && 0 < rva <= 0xFFFF_FFFF && rva + 29 <= |image|
              && (forall k | 0 <= k < 26 :: image[rva + 2 + k] == name[k] as int) && image[rva + 28] == 0
  {
    var rva, name := NameThunk(image, e, i), "RegisterApplicationRestart";
    assert LABEL == name + "\0" && |LABEL| == 27 && LABEL[26] as int == 0;
    assert forall k | 0 <= k < 26 :: LABEL[k] == name[k];
    if rva != 0 && rva <= MAX_DWORD && InImage(rva, HINT + |LABEL|, |image|) {
      assert image[rva + HINT + 26] == image[rva + 28];
    }
  }

  /** A thunk the walk arrives at: everything before it in its array is readable and not the terminator. */
  ghost predicate Visited(image: Image, e: Descriptor, i: nat) {
    && e.names != 0 && e.slots != 0 && i < |image| / THUNK
    && forall j | 0 <= j < i :: Readable(image, e, j) && NameThunk(image, e, j) != 0
  }

  /** A descriptor the walk arrives at: none before it, nor itself, is the terminator. */
  ghost predicate Reached(image: Image, dir: Directory, d: nat) {
    && InImage(dir.rva, dir.bytes, |image|) && d < dir.bytes / DESCRIPTOR
    && forall c | 0 <= c <= d :: DescriptorAt(image, dir, c).name != 0
  }

  /** A thunk the walk can take: readable, and by ordinal or with an address of one double word. */
  ghost predicate Sound(image: Image, e: Descriptor, i: nat) {
    Readable(image, e, i) && (NameThunk(image, e, i) < ORDINAL_FLAG ==> NameThunk(image, e, i) <= MAX_DWORD)
  }

  /** The thunk imports the wanted function by name. */
  predicate Wanted(image: Image, e: Descriptor, i: nat)
    requires Readable(image, e, i)
  {
    var rva := NameThunk(image, e, i);
    && rva != 0 && rva <= MAX_DWORD && InImage(rva, HINT + |LABEL|, |image|)
    && NamedAt(image, rva)
  }

  predicate NamedAt(image: Image, rva: nat)
    requires InImage(rva, HINT + |LABEL|, |image|)
  {
    forall k | 0 <= k < |LABEL| :: image[rva + HINT + k] == LABEL[k] as int
  }

  ghost predicate Match(image: Image, e: Descriptor, i: nat) {
    Visited(image, e, i) && Readable(image, e, i) && Wanted(image, e, i)
  }

  function Slot(e: Descriptor, i: nat): nat {
    e.slots + i * THUNK
  }

  /** A match whose slot still holds the function it was bound to. */
  ghost predicate Usable(image: Image, e: Descriptor, i: nat, expected: nat) {
    Match(image, e, i) && Quad(image, Slot(e, i)) == expected
  }

  /** Every thunk of one descriptor that the walk arrives at is sound. */
  ghost predicate SoundArray(image: Image, e: Descriptor) {
    forall i | Visited(image, e, i) :: Sound(image, e, i)
  }

  /** The descriptor's arrays are sound and import the function nowhere. */
  ghost predicate Silent(image: Image, e: Descriptor) {
    SoundArray(image, e) && forall i :: !Match(image, e, i)
  }

  /** The descriptor's arrays are sound and import the function once, in a slot that can be used. */
  ghost predicate Single(image: Image, e: Descriptor, at: nat, expected: nat) {
    SoundArray(image, e) && Usable(image, e, at, expected) && forall i | Match(image, e, i) :: i == at
  }

  /** Of all thunks of all descriptors the walk arrives at, this is the only match, and it can be used. */
  ghost predicate Sole(image: Image, dir: Directory, d: nat, at: nat, expected: nat) {
    && Reached(image, dir, d)
    && Usable(image, DescriptorAt(image, dir, d), at, expected)
    && (forall c | Reached(image, dir, c) :: SoundArray(image, DescriptorAt(image, dir, c)))
    && (forall c, i | Reached(image, dir, c) && Match(image, DescriptorAt(image, dir, c), i) :: c == d && i == at)
  }

  // ----- the walk

  datatype Walk = Refused | Going(found: Option<nat>)

  /** The arrays below `i`: all passed, and what they hold agrees with what was found. */
  ghost predicate Passed(image: Image, e: Descriptor, i: nat, before: Option<nat>, now: Option<nat>, at: Option<nat>, expected: nat) {
    && (forall j | 0 <= j < i :: Readable(image, e, j) && NameThunk(image, e, j) != 0 && Sound(image, e, j))
    && (at.None? ==> now == before && forall j | 0 <= j < i :: !Match(image, e, j))
    && (at.Some? ==>
          && before.None? && now == Some(Slot(e, at.value)) && at.value < i && Usable(image, e, at.value, expected)
          && forall j | 0 <= j < i && Match(image, e, j) :: j == at.value)
  }

  /** Nothing at or after `i` is visited beyond `i` itself, so what was passed is everything. */
  lemma EndOfArray(image: Image, e: Descriptor, i: nat, before: Option<nat>, now: Option<nat>, at: Option<nat>, expected: nat)
    requires Passed(image, e, i, before, now, at, expected)
    requires i >= |image| / THUNK || (Readable(image, e, i) && NameThunk(image, e, i) == 0)
    ensures at.None? ==> Silent(image, e)
    ensures at.Some? ==> Single(image, e, at.value, expected)
  {
    forall j: nat | Visited(image, e, j) ensures j <= i && (i < |image| / THUNK || j < i) {
      NothingBeyond(image, e, i, j);
    }
  }

  lemma NothingBeyond(image: Image, e: Descriptor, i: nat, j: nat)
    requires i >= |image| / THUNK || (Readable(image, e, i) && NameThunk(image, e, i) == 0)
    requires Visited(image, e, j)
    ensures j <= i && (i < |image| / THUNK || j < i)
  {
  }

  /** An unsound thunk, or a match that is not the first or not bound as expected, spoils the array. */
  lemma Spoiled(image: Image, e: Descriptor, i: nat, before: Option<nat>, now: Option<nat>, at: Option<nat>, expected: nat)
    requires e.names != 0 && e.slots != 0 && i < |image| / THUNK
    requires Passed(image, e, i, before, now, at, expected)
    requires !Sound(image, e, i) || (Match(image, e, i) && (now.Some? || Quad(image, Slot(e, i)) != expected))
    ensures !Silent(image, e)
    ensures before.None? ==> forall k :: !Single(image, e, k, expected)
  {
    assert Visited(image, e, i);
    if before.None? && at.Some? {
      assert Match(image, e, at.value) && at.value != i;
    }
  }

  lemma Extends(image: Image, e: Descriptor, i: nat, before: Option<nat>, now: Option<nat>, at: Option<nat>, expected: nat)
    requires e.names != 0 && e.slots != 0 && i < |image| / THUNK
    requires Passed(image, e, i, before, now, at, expected)
    requires Sound(image, e, i) && NameThunk(image, e, i) != 0
    ensures !Match(image, e, i) ==> Passed(image, e, i + 1, before, now, at, expected)
    ensures Match(image, e, i) && now.None? && Quad(image, Slot(e, i)) == expected
      ==> Passed(image, e, i + 1, before, Some(Slot(e, i)), Some(i), expected)
  {
  }

  /**
   * One descriptor's arrays. The walk goes on with what it had when they are silent, with their slot
   * when they hold the first match, and is refused otherwise.
   */
  method ScanArray(image: Image, e: Descriptor, found: Option<nat>, expected: nat) returns (w: Walk)
    requires e.names != 0 && e.slots != 0 && e.names <= MAX_DWORD && e.slots <= MAX_DWORD
    ensures Silent(image, e) ==> w == Going(found)
    ensures forall at :: found.None? && Single(image, e, at, expected) ==> w == Going(Some(Slot(e, at)))
    ensures w.Going? ==> Silent(image, e) || (found.None? && exists at :: Single(image, e, at, expected))
  {
    var now: Option<nat> := found;
    ghost var at: Option<nat> := None;
    var i: nat := 0;
    while i < |image| / THUNK
      invariant i <= |image| / THUNK
      invariant Passed(image, e, i, found, now, at, expected)
    {
      if !Readable(image, e, i) {
        Spoiled(image, e, i, found, now, at, expected);
        return Refused;
      }
      var name := NameThunk(image, e, i);
      if name == 0 { break; }
      if name < ORDINAL_FLAG && name > MAX_DWORD {
        Spoiled(image, e, i, found, now, at, expected);
        return Refused;
      }
      Extends(image, e, i, found, now, at, expected);
      if name < ORDINAL_FLAG && Wanted(image, e, i) {
        var slot := Slot(e, i);
        if now.Some? || Quad(image, slot) != expected {
          Spoiled(image, e, i, found, now, at, expected);
          return Refused;
        }
        now, at := Some(slot), Some(i);
      }
      i := i + 1;
    }
    EndOfArray(image, e, i, found, now, at, expected);
    w := Going(now);
  }

  /** The descriptors below `d`. */
  ghost predicate Covered(image: Image, dir: Directory, d: nat, found: Option<nat>, at: Option<(nat, nat)>, expected: nat)
    requires InImage(dir.rva, dir.bytes, |image|) && d <= dir.bytes / DESCRIPTOR
  {
    && (forall c | 0 <= c < d ::
          DescriptorAt(image, dir, c).name != 0 && SoundArray(image, DescriptorAt(image, dir, c)))
    && (at.None? ==> found.None? && forall c, i | 0 <= c < d :: !Match(image, DescriptorAt(image, dir, c), i))
    && (at.Some? ==>
          && at.value.0 < d && Usable(image, DescriptorAt(image, dir, at.value.0), at.value.1, expected)
          && found == Some(Slot(DescriptorAt(image, dir, at.value.0), at.value.1))
          && forall c, i | 0 <= c < d && Match(image, DescriptorAt(image, dir, c), i) :: c == at.value.0 && i == at.value.1)
  }

  lemma EndOfDescriptors(image: Image, dir: Directory, d: nat, found: Option<nat>, at: Option<(nat, nat)>, expected: nat)
    requires InImage(dir.rva, dir.bytes, |image|) && d <= dir.bytes / DESCRIPTOR
    requires Covered(image, dir, d, found, at, expected)
    requires d == dir.bytes / DESCRIPTOR || DescriptorAt(image, dir, d).name == 0
    ensures at.Some? ==> Sole(image, dir, at.value.0, at.value.1, expected)
    ensures at.None? ==> forall c, i :: !Sole(image, dir, c, i, expected)
  {
    forall c: nat | Reached(image, dir, c) ensures c < d {
      ReachedStops(image, dir, c, d);
    }
    if at.Some? { assert Reached(image, dir, at.value.0); }
  }

  lemma ReachedStops(image: Image, dir: Directory, c: nat, d: nat)
    requires Reached(image, dir, c) && d <= dir.bytes / DESCRIPTOR
    requires d == dir.bytes / DESCRIPTOR || DescriptorAt(image, dir, d).name == 0
    ensures c < d
  {
  }

  /** Where the sole match is not, the arrays are silent. */
  lemma SoleElsewhere(image: Image, dir: Directory, c: nat, i: nat, d: nat, expected: nat)
    requires Sole(image, dir, c, i, expected) && Reached(image, dir, d)
    ensures d != c ==> Silent(image, DescriptorAt(image, dir, d))
    ensures d == c ==> Single(image, DescriptorAt(image, dir, d), i, expected)
  {
  }

  /** A descriptor whose arrays refuse the walk leaves no slot to choose. */
  lemma Hopeless(image: Image, dir: Directory, d: nat, found: Option<nat>, at: Option<(nat, nat)>, expected: nat)
    requires InImage(dir.rva, dir.bytes, |image|) && d < dir.bytes / DESCRIPTOR
    requires Covered(image, dir, d, found, at, expected)
    requires var e := DescriptorAt(image, dir, d);
             && e.name != 0 && !Silent(image, e)
             && (found.None? ==> forall i :: !Single(image, e, i, expected))
    ensures forall c, i :: !Sole(image, dir, c, i, expected)
  {
    assert Reached(image, dir, d);
    if at.Some? { assert Reached(image, dir, at.value.0); }
    forall c: nat, i: nat, b: nat | Sole(image, dir, c, i, expected) && Reached(image, dir, b)
      ensures b != c ==> Silent(image, DescriptorAt(image, dir, b))
      ensures b == c ==> Single(image, DescriptorAt(image, dir, b), i, expected)
    {
      SoleElsewhere(image, dir, c, i, b, expected);
    }
  }

  /** A descriptor that goes on extends what is covered. */
  lemma CoversNext(image: Image, dir: Directory, d: nat, found: Option<nat>, at: Option<(nat, nat)>, expected: nat)
    requires InImage(dir.rva, dir.bytes, |image|) && d < dir.bytes / DESCRIPTOR
    requires Covered(image, dir, d, found, at, expected)
    requires DescriptorAt(image, dir, d).name != 0
    ensures Silent(image, DescriptorAt(image, dir, d)) ==> Covered(image, dir, d + 1, found, at, expected)
    ensures forall i | found.None? && Single(image, DescriptorAt(image, dir, d), i, expected) ::
              Covered(image, dir, d + 1, Some(Slot(DescriptorAt(image, dir, d), i)), Some((d, i)), expected)
  {
  }

  /** One descriptor of the walk: what it covers grows, or no slot can be chosen. */
  method ScanDescriptor(image: Image, dir: Directory, d: nat, found: Option<nat>, ghost at: Option<(nat, nat)>, expected: nat)
    returns (w: Walk, ghost at': Option<(nat, nat)>)
    requires InImage(dir.rva, dir.bytes, |image|) && d < dir.bytes / DESCRIPTOR
    requires Covered(image, dir, d, found, at, expected) && DescriptorAt(image, dir, d).name != 0
    ensures w.Refused? ==> forall c, i :: !Sole(image, dir, c, i, expected)
    ensures w.Going? ==> Covered(image, dir, d + 1, w.found, at', expected)
  {
    var e := DescriptorAt(image, dir, d);
    at' := at;
    CoversNext(image, dir, d, found, at, expected);
    if e.names == 0 || e.slots == 0 { return Going(found), at; }
    w := ScanArray(image, e, found, expected);
    if w.Refused? {
      Hopeless(image, dir, d, found, at, expected);
    } else if !Silent(image, e) {
      ghost var i :| Single(image, e, i, expected);
      at' := Some((d, i));
    }
  }

  /**
   * A slot is found exactly when every thunk the walk arrives at is sound, inside the image and free
   * of wrap-around, and exactly one of them imports the function, in a slot still bound to it.
   */
  method FindSlot(image: Image, dir: Directory, expected: nat) returns (r: Option<nat>)
    ensures r.Some? <==> exists d, at :: Sole(image, dir, d, at, expected)
    ensures r.Some? ==> exists d, at :: Sole(image, dir, d, at, expected) && r.value == Slot(DescriptorAt(image, dir, d), at)
  {
    if !InImage(dir.rva, dir.bytes, |image|) { return None; }
    var found: Option<nat> := None;
    ghost var at: Option<(nat, nat)> := None;
    var d: nat := 0;
    while d < dir.bytes / DESCRIPTOR
      invariant d <= dir.bytes / DESCRIPTOR
      invariant Covered(image, dir, d, found, at, expected)
    {
      if DescriptorAt(image, dir, d).name == 0 { break; }
      var w: Walk;
      w, at := ScanDescriptor(image, dir, d, found, at, expected);
      if w.Refused? { return None; }
      found := w.found;
      d := d + 1;
    }
    EndOfDescriptors(image, dir, d, found, at, expected);
    r := found;
  }
}
