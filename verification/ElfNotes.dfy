/**
 * The search for the GNU build ID in the bytes of an ELF note segment
 * (System V gABI, chapter 5, "Note Section"), and the notes it is a search in.
 */
module ElfNotes {
  import opened Bytes

  const NOTE_GNU_BUILD_ID: U32 := 3
  const GNU: seq<Byte> := [0x47, 0x4e, 0x55, 0]
  const NOTE_HEADER: nat := 12

  datatype Note = Note(name: seq<Byte>, typ: U32, desc: seq<Byte>)

  type Align = a: nat | a == 4 || a == 8 witness 4

  /** The next multiple of the alignment. */
  function RoundUp(n: nat, align: Align): (r: nat)
    ensures n <= r < n + align && r % align == 0
  {
    if align == 4 then
      var k := (n + 3) / 4;
      assert k * 4 % 4 == 0;
      k * 4
    else
      var k := (n + 7) / 8;
      assert k * 8 % 8 == 0;
      k * 8
  }

  // ---- Writing notes ----

  function Padding(n: nat, align: Align): (r: seq<Byte>)
    ensures n + |r| == RoundUp(n, align)
  {
    seq(RoundUp(n, align) - n, i => 0)
  }

  predicate Encodable(n: Note) {
    |n.name| < 0x1_0000_0000 && |n.desc| < 0x1_0000_0000
  }

  function EncodeNote(n: Note, align: Align): seq<Byte>
    requires Encodable(n)
  {
    var head := Le32(|n.name|) + Le32(|n.desc|) + Le32(n.typ) + n.name;
    head + Padding(|head|, align) + n.desc + Padding(|n.desc|, align)
  }

  function Encode(notes: seq<Note>, align: Align): seq<Byte>
    requires forall n :: n in notes ==> Encodable(n)
  {
    if notes == [] then [] else EncodeNote(notes[0], align) + Encode(notes[1..], align)
  }

  // ---- Reading notes ----

  /** A note and the offset of the next one from its start. */
  datatype Parsed = Incomplete | Complete(note: Note, next: nat)

  /** The note at pos, unless it runs past the end of p. */
  function NoteAt(p: seq<Byte>, pos: nat, align: Align): (r: Parsed)
    requires pos <= |p|
    ensures r.Complete? ==> r.next >= NOTE_HEADER
  {
    var left := |p| - pos;
    if left < NOTE_HEADER then Incomplete
    else
      var nameSize, descSize := U32At(p, pos), U32At(p, pos + 4);
      if nameSize > left - NOTE_HEADER then Incomplete
      else
        var descOff := RoundUp(NOTE_HEADER + nameSize, align);
        if descOff > left || descSize > left - descOff then Incomplete
        else
          Complete(Note(Slice(p, pos + NOTE_HEADER, nameSize), U32At(p, pos + 8), Slice(p, pos + descOff, descSize)),
                   RoundUp(descOff + descSize, align))
  }

  /** The complete notes in p from pos on, p being any bytes; the first one that does not fit ends them. */
  function NotesAt(p: seq<Byte>, pos: nat, align: Align): seq<Note>
    requires pos <= |p|
    decreases |p| - pos
  {
    match NoteAt(p, pos, align)
    case Incomplete => []
    case Complete(note, next) => [note] + (if next >= |p| - pos then [] else NotesAt(p, pos + next, align))
  }

  function Slice(p: seq<Byte>, from: nat, size: nat): (r: seq<Byte>)
    requires from + size <= |p|
    ensures |r| == size
  {
    p[from..from + size]
  }

  function U32At(p: seq<Byte>, from: nat): U32
    requires from + 4 <= |p|
  {
    FromLe32(Slice(p, from, 4))
  }

  /** The description of the first build-ID note, if it is not empty and fits. */
  function BuildId(notes: seq<Note>, cap: nat): seq<Byte> {
    if notes == [] then []
    else if notes[0].typ == NOTE_GNU_BUILD_ID && notes[0].name == GNU then
      if |notes[0].desc| <= cap then notes[0].desc else []
    else BuildId(notes[1..], cap)
  }

  lemma PaddedTo(n: nat, size: nat, align: Align)
    ensures RoundUp(RoundUp(n, align) + size, align) == RoundUp(n, align) + RoundUp(size, align)
  {
    if align == 4 {
      var k := (n + 3) / 4;
      assert (4 * k + (size + 3)) / 4 == k + (size + 3) / 4;
    } else {
      var k := (n + 7) / 8;
      assert (8 * k + (size + 7)) / 8 == k + (size + 7) / 8;
    }
  }

  lemma SliceOf(before: seq<Byte>, mid: seq<Byte>, after: seq<Byte>)
    ensures |before| + |mid| <= |before + mid + after|
    ensures Slice(before + mid + after, |before|, |mid|) == mid
  {
  }

  lemma U32Of(before: seq<Byte>, v: U32, after: seq<Byte>)
    ensures |before| + 4 <= |before + Le32(v) + after| && U32At(before + Le32(v) + after, |before|) == v
  {
    hide Le32, FromLe32, Slice;
    SliceOf(before, Le32(v), after);
    Le32RoundTrip(v);
  }

  /** The fields of a note are where the reader looks for them. */
  lemma FieldsAt(before: seq<Byte>, n: Note, align: Align, rest: seq<Byte>, p: seq<Byte>)
    requires Encodable(n) && p == before + EncodeNote(n, align) + rest
    ensures var pos, descOff := |before|, RoundUp(NOTE_HEADER + |n.name|, align);
            && pos + descOff + |n.desc| <= |p|
            && U32At(p, pos) == |n.name| && U32At(p, pos + 4) == |n.desc| && U32At(p, pos + 8) == n.typ
            && Slice(p, pos + NOTE_HEADER, |n.name|) == n.name && Slice(p, pos + descOff, |n.desc|) == n.desc
            && |EncodeNote(n, align)| == RoundUp(descOff + |n.desc|, align)
  {
    hide Le32, RoundUp, Slice, U32At, EncodeNote, Padding;
    var a, b, c := Le32(|n.name|), Le32(|n.desc|), Le32(n.typ);
    var size := NOTE_HEADER + |n.name|;
    var pad, pad' := Padding(size, align), Padding(|n.desc|, align);
    EncodedParts(n, align);
    PaddedTo(size, |n.desc|, align);
    HeaderAt(before, |n.name|, |n.desc|, n.typ, n.name + pad + n.desc + pad' + rest);
    assert p == before + (a + b + c) + (n.name + pad + n.desc + pad' + rest);
    SlicesAt(before + (a + b + c), n.name, pad, n.desc, pad' + rest, p);
  }

  lemma SlicesAt(head: seq<Byte>, name: seq<Byte>, pad: seq<Byte>, desc: seq<Byte>, tail: seq<Byte>, p: seq<Byte>)
    requires p == head + (name + pad + desc + tail)
    ensures |head| + |name| + |pad| + |desc| <= |p|
    ensures Slice(p, |head|, |name|) == name && Slice(p, |head| + |name| + |pad|, |desc|) == desc
  {
    hide Slice;
    assert p == head + name + (pad + desc + tail);
    SliceOf(head, name, pad + desc + tail);
    assert p == (head + name + pad) + desc + tail;
    SliceOf(head + name + pad, desc, tail);
  }

  lemma EncodedParts(n: Note, align: Align)
    requires Encodable(n)
    ensures EncodeNote(n, align) == Le32(|n.name|) + Le32(|n.desc|) + Le32(n.typ) + n.name
                                    + Padding(NOTE_HEADER + |n.name|, align) + n.desc + Padding(|n.desc|, align)
  {
    hide Le32, RoundUp;
  }

  lemma HeaderAt(before: seq<Byte>, u: U32, v: U32, w: U32, after: seq<Byte>)
    ensures var p := before + (Le32(u) + Le32(v) + Le32(w)) + after;
            && |before| + NOTE_HEADER <= |p|
            && U32At(p, |before|) == u && U32At(p, |before| + 4) == v && U32At(p, |before| + 8) == w
  {
    hide Le32, U32At;
    var a, b, c := Le32(u), Le32(v), Le32(w);
    var p := before + (a + b + c) + after;
    assert p == before + a + (b + c + after);
    U32Of(before, u, b + c + after);
    assert p == (before + a) + b + (c + after);
    U32Of(before + a, v, c + after);
    assert p == (before + a + b) + c + after;
    U32Of(before + a + b, w, after);
  }

  /** One note is read back, and the next one is right behind its padding. */
  lemma NoteRoundTrip(before: seq<Byte>, n: Note, align: Align, rest: seq<Byte>, p: seq<Byte>)
    requires Encodable(n) && p == before + EncodeNote(n, align) + rest
    ensures NoteAt(p, |before|, align) == Complete(n, |EncodeNote(n, align)|)
  {
    FieldsAt(before, n, align, rest, p);
    hide RoundUp, Slice, U32At, EncodeNote;
  }

  /** Whatever notes were written, with either alignment, are the notes read. */
  lemma {:induction false} NotesRoundTrip(before: seq<Byte>, notes: seq<Note>, align: Align)
    requires forall n :: n in notes ==> Encodable(n)
    ensures NotesAt(before + Encode(notes, align), |before|, align) == notes
    decreases |notes|
  {
    hide EncodeNote, NoteAt;
    var p := before + Encode(notes, align);
    if notes == [] {
      NothingAtEnd(p, align);
    } else {
      var first, rest := EncodeNote(notes[0], align), Encode(notes[1..], align);
      assert p == before + first + rest;
      NotesRoundTrip(before + first, notes[1..], align);
      NoteRoundTrip(before, notes[0], align, rest, p);
      NothingAtEnd(p, align);
    }
  }

  lemma NothingAtEnd(p: seq<Byte>, align: Align)
    ensures NoteAt(p, |p|, align) == Incomplete
  {
  }

  /**
   * As written, every note starts at a multiple of the alignment from the first, and so does its description, with no
   * more than the padding before it.
   */
  lemma {:induction false} NotesAreAligned(notes: seq<Note>, align: Align, k: nat)
    requires (forall n :: n in notes ==> Encodable(n)) && k < |notes|
    ensures forall n :: n in notes[..k] ==> Encodable(n)
    ensures var p, start := Encode(notes, align), |Encode(notes[..k], align)|;
            && start % align == 0 && |p| % align == 0
            && exists at: nat :: at % align == 0 && start + NOTE_HEADER + |notes[k].name| <= at
                                 && at < start + NOTE_HEADER + |notes[k].name| + align && at + |notes[k].desc| <= |p|
                                 && p[at..at + |notes[k].desc|] == notes[k].desc
  {
    hide EncodeNote, RoundUp, U32At, Padding;
    EncodeSplit(notes, align, k);
    EncodeIsAligned(notes[..k], align);
    EncodeIsAligned(notes, align);
    var before, n, rest := Encode(notes[..k], align), notes[k], Encode(notes[k + 1..], align);
    FieldsAt(before, n, align, rest, Encode(notes, align));
    var off := RoundUp(NOTE_HEADER + |n.name|, align);
    SumIsAligned(|before|, off, align);
    var at: nat := |before| + off;
    assert Encode(notes, align)[at..at + |n.desc|] == n.desc;
  }

  lemma SumIsAligned(a: nat, b: nat, align: Align)
    requires a % align == 0 && b % align == 0
    ensures (a + b) % align == 0
  {
    if align == 4 {} else {}
  }

  lemma {:induction false} EncodeIsAligned(notes: seq<Note>, align: Align)
    requires forall n :: n in notes ==> Encodable(n)
    ensures |Encode(notes, align)| % align == 0
  {
    hide EncodeNote, RoundUp, Padding;
    if notes != [] {
      var n := notes[0];
      EncodeIsAligned(notes[1..], align);
      FieldsAt([], n, align, [], EncodeNote(n, align));
      assert [] + EncodeNote(n, align) + [] == EncodeNote(n, align);
      SumIsAligned(|EncodeNote(n, align)|, |Encode(notes[1..], align)|, align);
    }
  }

  lemma {:induction false} EncodeSplit(notes: seq<Note>, align: Align, k: nat)
    requires (forall n :: n in notes ==> Encodable(n)) && k < |notes|
    ensures Encode(notes, align)
            == Encode(notes[..k], align) + EncodeNote(notes[k], align) + Encode(notes[k + 1..], align)
  {
    hide EncodeNote;
    if k > 0 {
      EncodeSplit(notes[1..], align, k - 1);
      assert notes[..k][1..] == notes[1..][..k - 1] && notes[1..][k..] == notes[k + 1..];
    }
  }

  /** A note with its bytes written out: name "GNU", type 3, five bytes of description, alignment 8. */
  lemma KnownNote()
    ensures EncodeNote(Note(GNU, NOTE_GNU_BUILD_ID, [0x90, 5, 0x96, 0x59, 0xaa]), 8)
            == [4, 0, 0, 0, 5, 0, 0, 0, 3, 0, 0, 0, 'G' as Byte, 'N' as Byte, 'U' as Byte, 0,
                0x90, 5, 0x96, 0x59, 0xaa, 0, 0, 0]
  {
    hide Padding, EncodeNote, Le32;
    KnownParts();
    var n := Note(GNU, NOTE_GNU_BUILD_ID, [0x90, 5, 0x96, 0x59, 0xaa]);
    EncodedParts(n, 8);
  }

  lemma KnownParts()
    ensures Le32(4) == [4, 0, 0, 0] && Le32(5) == [5, 0, 0, 0] && Le32(3) == [3, 0, 0, 0]
    ensures Padding(16, 8) == [] && Padding(5, 8) == [0, 0, 0]
  {
  }

  /** First means first: the notes before the answer are not build-ID notes, and a build-ID note is never passed over. */
  lemma {:induction false} BuildIdIsFirst(notes: seq<Note>, cap: nat, k: nat)
    requires k < |notes| && notes[k].typ == NOTE_GNU_BUILD_ID && notes[k].name == GNU
    requires forall j :: 0 <= j < k ==> notes[j].typ != NOTE_GNU_BUILD_ID || notes[j].name != GNU
    ensures BuildId(notes, cap) == if 0 < |notes[k].desc| <= cap then notes[k].desc else []
  {
    if k > 0 {
      BuildIdIsFirst(notes[1..], cap, k - 1);
    }
  }

  lemma {:induction false} NoBuildId(notes: seq<Note>, cap: nat)
    requires forall j :: 0 <= j < |notes| ==> notes[j].typ != NOTE_GNU_BUILD_ID || notes[j].name != GNU
    ensures BuildId(notes, cap) == []
  {
    if notes != [] { NoBuildId(notes[1..], cap); }
  }

  // ---- The search ----

  /**
   * Copies the build ID found in arbitrary bytes to id and returns its length, or returns 0 and leaves id alone.
   * sizeMax is the largest size_t: no offset computed on the way exceeds it.
   */
  method FindGnuBuildId(notes: Option<seq<Byte>>, align: nat, id: array?<Byte>, cap: nat, sizeMax: nat)
    returns (n: nat)
    requires notes.Some? ==> |notes.value| + 7 <= sizeMax
    requires id != null ==> cap <= id.Length
    modifies if id != null then {id} else {}
    ensures notes.None? || id == null ==> n == 0
    ensures notes.Some? && id != null ==>
              var a: Align := if align == 8 then 8 else 4;
              var found := BuildId(NotesAt(notes.value, 0, a), cap);
              && n == |found| <= cap && id[..] == found + old(id[..])[n..]
  {
    if notes.None? || id == null {
      return 0;
    }
    var a: Align := if align != 8 then 4 else align;
    var from, size := Search(notes.value, a, cap, sizeMax);
    CopyTo(id, Slice(notes.value, from, size));
    return size;
  }

  /** Where the build ID is; size is 0 when there is none. */
  method Search(p: seq<Byte>, a: Align, cap: nat, sizeMax: nat) returns (from: nat, size: nat)
    requires |p| + 7 <= sizeMax
    ensures from + size <= |p| && size <= cap && Slice(p, from, size) == BuildId(NotesAt(p, 0, a), cap)
  {
    EmptySlice(p);
    hide NoteAt, BuildId, RoundUp, Slice;
    var pos := 0;
    while |p| - pos >= NOTE_HEADER
      invariant pos <= |p| && BuildId(NotesAt(p, pos, a), cap) == BuildId(NotesAt(p, 0, a), cap)
      decreases |p| - pos
    {
      var left := |p| - pos;
      BuildIdSplit(NotesAt(p, pos, a), cap);
      var complete, typ, isGnu, descOff, descSize := ReadNote(p, pos, a, sizeMax);
      if !complete {
        return 0, 0;
      }
      if typ == NOTE_GNU_BUILD_ID && isGnu {
        if descSize == 0 || descSize > cap {
          assert NotesAt(p, pos, a)[0].desc == [] || |NotesAt(p, pos, a)[0].desc| > cap;
          return 0, 0;
        }
        return pos + descOff, descSize;
      }
      var next := RoundUp(descOff + descSize, a);
      if next >= left {
        NothingBuilt(cap);
        return 0, 0;
      }
      pos := pos + next;
    }
    NoNotes(p, pos, a, cap);
    return 0, 0;
  }

  lemma EmptySlice(p: seq<Byte>)
    ensures Slice(p, 0, 0) == []
  {
  }

  /** Parses the note at pos: complete unless it runs past the end. No offset exceeds the largest size_t. */
  method ReadNote(p: seq<Byte>, pos: nat, a: Align, sizeMax: nat)
    returns (complete: bool, typ: U32, isGnu: bool, descOff: nat, descSize: nat)
    requires pos + NOTE_HEADER <= |p| && |p| + 7 <= sizeMax
    ensures complete <==> NoteAt(p, pos, a).Complete?
    ensures complete ==>
              && pos + descOff + descSize <= |p| && descOff + descSize + a - 1 <= sizeMax
              && var r := NoteAt(p, pos, a);
              && r.note.typ == typ && (r.note.name == GNU <==> isGnu) && r.note.desc == Slice(p, pos + descOff, descSize)
              && r.next == RoundUp(descOff + descSize, a)
  {
    hide U32At, RoundUp, Slice;
    typ, isGnu, descOff, descSize := 0, false, 0, 0;
    var left := |p| - pos;
    var nameSize := U32At(p, pos);
    descSize, typ := U32At(p, pos + 4), U32At(p, pos + 8);
    if nameSize > left - NOTE_HEADER {
      return false, typ, isGnu, descOff, descSize;
    }
    assert NOTE_HEADER + nameSize + a - 1 <= sizeMax;
    descOff := RoundUp(NOTE_HEADER + nameSize, a);
    if descOff > left || descSize > left - descOff {
      return false, typ, isGnu, descOff, descSize;
    }
    isGnu := nameSize == 4 && Slice(p, pos + NOTE_HEADER, nameSize) == GNU;
    complete := true;
  }

  lemma BuildIdSplit(notes: seq<Note>, cap: nat)
    ensures BuildId(notes, cap)
            == if notes == [] then []
               else if notes[0].typ == NOTE_GNU_BUILD_ID && notes[0].name == GNU then
                 if |notes[0].desc| <= cap then notes[0].desc else []
               else BuildId(notes[1..], cap)
  {
  }

  lemma NothingBuilt(cap: nat)
    ensures BuildId([], cap) == []
  {
  }

  lemma NoNotes(p: seq<Byte>, pos: nat, a: Align, cap: nat)
    requires pos <= |p| < pos + NOTE_HEADER
    ensures BuildId(NotesAt(p, pos, a), cap) == []
  {
  }

  method CopyTo(id: array<Byte>, bytes: seq<Byte>)
    requires |bytes| <= id.Length
    modifies id
    ensures id[..] == bytes + old(id[..])[|bytes|..]
  {
    for i := 0 to |bytes|
      invariant forall k :: 0 <= k < i ==> id[k] == bytes[k]
      invariant forall k :: i <= k < id.Length ==> id[k] == old(id[k])
    {
      id[i] := bytes[i];
    }
  }
}
