/** The walk over the ELF note segments of a loaded object that looks for its GNU build-id
    (System V gABI, chapter 5, "Note Section"), in the arithmetic of the code: 32-bit header
    words, a size_t step, and a signed remaining length that is compared as if unsigned. */
module BuildId {

  newtype byte = x: int | 0 <= x < 256

  const WORD: int := 0x1_0000_0000
  const SIZE: int := 0x1_0000_0000_0000_0000

  // ----- ALIGN -----

  /** Bitwise and of two numbers. */
  function BitAnd(a: nat, b: nat): nat {
    if a == 0 || b == 0 then 0 else (a % 2) * (b % 2) + 2 * BitAnd(a / 2, b / 2)
  }

  /** `ALIGN(val, 4)` on a 32-bit word: `(val + 3) & ~3`, wrapping. */
  function Align4(v: nat): nat {
    BitAnd((v + 3) % WORD, WORD - 1 - 3)
  }

  function Pow2(n: nat): nat {
    if n == 0 then 1 else 2 * Pow2(n - 1)
  }

  /** A mask of `n` ones keeps a number of `n` bits. */
  lemma {:induction false} OnesKeep(a: nat, n: nat)
    requires a < Pow2(n)
    ensures BitAnd(a, Pow2(n) - 1) == a
  {
    if n > 0 && a > 0 {
      assert (Pow2(n) - 1) / 2 == Pow2(n - 1) - 1 && (Pow2(n) - 1) % 2 == 1;
      OnesKeep(a / 2, n - 1);
    }
  }

  lemma ThirtyBits()
    ensures Pow2(30) == 0x4000_0000
  {
    assert Pow2(10) == 1024;
    assert Pow2(20) == 1024 * Pow2(10);
    assert Pow2(30) == 1024 * Pow2(20);
  }

  /** The mask clears the two low bits of a word. */
  lemma MaskClearsLowBits(w: nat)
    requires w < WORD
    ensures BitAnd(w, WORD - 1 - 3) == w - w % 4
  {
    ThirtyBits();
    OnesKeep(w / 4, 30);
    var m := WORD - 1 - 3;
    assert m / 2 == 0x7FFF_FFFE && m % 2 == 0;
    assert (m / 2) / 2 == 0x3FFF_FFFF && (m / 2) % 2 == 0;
    assert w / 2 / 2 == w / 4;
    if w > 1 {
      assert BitAnd(w / 2, m / 2) == 2 * BitAnd(w / 4, 0x3FFF_FFFF);
    }
  }

  /** Up to 2^32 - 4 the mask expression is the least multiple of 4 that is not smaller; beyond,
      it wraps to 0. */
  lemma AlignRoundsUp(v: nat)
    requires v < WORD
    ensures v <= WORD - 4 ==>
              v <= Align4(v) < v + 4 && Align4(v) % 4 == 0 && forall m :: v <= m && m % 4 == 0 ==> Align4(v) <= m
    ensures v > WORD - 4 ==> Align4(v) == 0
  {
    hide BitAnd;
    MaskClearsLowBits((v + 3) % WORD);
    LeastMultiple(v);
  }

  lemma LeastMultiple(v: nat)
    ensures var a := (v + 3) - (v + 3) % 4;
            v <= a < v + 4 && a % 4 == 0 && forall m :: v <= m && m % 4 == 0 ==> a <= m
  {
  }

  // ----- notes -----

  const NHDR: nat := 12          // sizeof(ElfW(Nhdr))
  const NOTE: nat := 16          // sizeof(struct build_id_note)
  const NT_GNU_BUILD_ID: nat := 3
  const GNU: seq<byte> := [0x47, 0x4E, 0x55, 0]

  /** A little-endian 32-bit word. */
  function Word(b: seq<byte>, at: nat): nat
    requires at + 4 <= |b|
  {
    b[at] as nat + 0x100 * b[at + 1] as nat + 0x1_0000 * b[at + 2] as nat + 0x100_0000 * b[at + 3] as nat
  }

  /** What the loop adds to its pointer for the note at the head of `b`. */
  function Step(b: seq<byte>): nat
    requires |b| >= NHDR
  {
    NHDR + Align4(Word(b, 0)) + Align4(Word(b, 4))
  }

  /** A GNU build-id note starts here. */
  predicate Matches(b: seq<byte>) {
    && |b| >= NOTE
    && Word(b, 8) == NT_GNU_BUILD_ID && Word(b, 4) != 0 && Word(b, 0) == 4 && b[12..16] == GNU
  }

  /** Found at an offset, not found, or: the loop reads a header beyond the segment. */
  datatype Search = Found(at: nat) | NotFound | Outside

  /** A negative remaining length is a huge size_t. */
  function AsSize(len: int): nat {
    len % SIZE
  }

  /** The loop over one segment, `len` bytes of it being left at `note`. */
  method FindInSegment(seg: seq<byte>) returns (r: Search)
    requires |seg| < SIZE / 2
    ensures r == Walk(seg)
  {
    hide Align4, Word, AsSize, Matches;
    var note: int, len: int := 0, |seg|;
    SizeOf(len);
    while AsSize(len) >= NOTE
      invariant note + len == |seg| && 0 <= note && -2 * WORD - NHDR <= len
      invariant AsSize(len) == if len < 0 then len + SIZE else len
      invariant if len < 0 then Walk(seg) == Outside else Walk(seg) == Shift(Walk(seg[note..]), note)
      decreases if len < 0 then 0 else len + 1
    {
      if len < 0 {
        return Outside;   // the header read next is not the segment's
      }
      ghost var here := seg[note..];
      var found := MatchesAt(seg, note);
      if found {
        return Found(note);
      }
      WordsLocal(seg, note);
      var offset := NHDR + Align4(Word(seg, note)) + Align4(Word(seg, note + 4));
      AlignBound(Word(seg, note));
      AlignBound(Word(seg, note + 4));
      assert offset == Step(here);
      assert offset <= len ==> here[offset..] == seg[note + offset..];
      note := note + offset;
      len := len - offset;
      SizeOf(len);
    }
    return NotFound;
  }

  /** The test of one note header, with its name read last. */
  method MatchesAt(seg: seq<byte>, note: nat) returns (found: bool)
    requires note + NOTE <= |seg|
    ensures found <==> Matches(seg[note..])
  {
    WordsLocal(seg, note);
    assert seg[note..][12..16] == seg[note + 12..note + 16];
    found := Word(seg, note + 8) == NT_GNU_BUILD_ID && Word(seg, note + 4) != 0 && Word(seg, note) == 4
             && seg[note + 12..note + 16] == GNU;
  }

  lemma WordsLocal(seg: seq<byte>, note: nat)
    requires note + NHDR <= |seg|
    ensures Word(seg[note..], 0) == Word(seg, note) < WORD && Word(seg[note..], 4) == Word(seg, note + 4) < WORD
    ensures Word(seg[note..], 8) == Word(seg, note + 8)
  {
  }

  lemma SizeOf(len: int)
    requires -SIZE / 2 <= len < SIZE / 2
    ensures AsSize(len) == if len < 0 then len + SIZE else len
  {
  }

  lemma AlignBound(v: nat)
    ensures Align4(v) < WORD
  {
    MaskClearsLowBits((v + 3) % WORD);
  }

  function Shift(r: Search, k: nat): Search {
    if r.Found? then Found(r.at + k) else r
  }

  /** What the loop computes, note by note. */
  function Walk(b: seq<byte>): Search
    decreases |b|
  {
    if |b| < NOTE then NotFound
    else if Matches(b) then Found(0)
    else if Step(b) > |b| then Outside
    else Shift(Walk(b[Step(b)..]), Step(b))
  }

  // ----- what the walk means -----

  /** Exactly one note that is not a build-id: as long as its own header says. */
  ghost predicate IsOtherNote(n: seq<byte>) {
    |n| >= NHDR && |n| == Step(n) && !Matches(n)
  }

  function Concat(ns: seq<seq<byte>>): seq<byte> {
    if ns == [] then [] else ns[0] + Concat(ns[1..])
  }

  /** The segment is a sequence of other notes, then `rest`. */
  ghost predicate Splits(b: seq<byte>, ns: seq<seq<byte>>, rest: seq<byte>) {
    b == Concat(ns) + rest && forall i :: 0 <= i < |ns| ==> IsOtherNote(ns[i])
  }

  /** A header that claims more than is left. */
  predicate Overshoots(rest: seq<byte>) {
    |rest| >= NOTE && !Matches(rest) && Step(rest) > |rest|
  }

  /** The search, read off a split. */
  function Verdict(ns: seq<seq<byte>>, rest: seq<byte>): Search {
    if Matches(rest) then Found(|Concat(ns)|) else if Overshoots(rest) then Outside else NotFound
  }

  /** Where the walk stops: at a build-id note, at a header that overshoots, or at too few bytes
      for either. */
  predicate Stops(rest: seq<byte>) {
    |rest| < NOTE || Matches(rest) || Overshoots(rest)
  }

  /** Whatever splits a segment into other notes and a stopping point, the walk stops there. */
  lemma {:induction false} WalkFollowsSplit(b: seq<byte>, ns: seq<seq<byte>>, rest: seq<byte>)
    requires Splits(b, ns, rest) && Stops(rest)
    ensures Walk(b) == Verdict(ns, rest)
    decreases |ns|
  {
    if ns == [] {
      assert b == rest;
    } else {
      var n, tail := ns[0], Concat(ns[1..]) + rest;
      assert b == n + tail;
      HeaderIsLocal(n, tail);
      assert b[|n|..] == tail;
      WalkFollowsSplit(tail, ns[1..], rest);
      if |b| < NOTE {
        ShortHasNoVerdict(tail, ns[1..], rest);
      }
    }
  }

  /** Fewer bytes than the loop guard asks for hold no build-id note. */
  lemma ShortHasNoVerdict(b: seq<byte>, ns: seq<seq<byte>>, rest: seq<byte>)
    requires b == Concat(ns) + rest && |b| < NOTE
    ensures Verdict(ns, rest) == NotFound
  {
    assert |rest| <= |b|;
  }

  lemma HeaderIsLocal(n: seq<byte>, tail: seq<byte>)
    requires IsOtherNote(n)
    ensures Step(n + tail) == Step(n) && !Matches(n + tail)
  {
    var b := n + tail;
    assert forall i :: 0 <= i < NHDR ==> b[i] == n[i];
    if Word(n, 0) == 4 {
      AlignRoundsUp(4);
      assert b[12..16] == n[12..16];
    }
  }

  lemma {:induction false} SplitExists(b: seq<byte>) returns (ns: seq<seq<byte>>, rest: seq<byte>)
    ensures Splits(b, ns, rest) && Stops(rest)
    decreases |b|
  {
    if Stops(b) {
      ns, rest := [], b;
    } else {
      var k := Step(b);
      var n := b[..k];
      ns, rest := SplitExists(b[k..]);
      assert forall i :: 0 <= i < NHDR ==> b[i] == n[i];
      assert b == n + b[k..];
      assert IsOtherNote(n) by {
        if |n| >= NOTE { assert n[12..16] == b[12..16]; }
      }
      ns := [n] + ns;
      assert Concat(ns) + rest == n + (Concat(ns[1..]) + rest);
    }
  }

  /** Sound and complete, for every segment whatsoever: it splits into notes that are no
      build-id and a stopping point; the search finds the first build-id note if there is one on
      a note boundary before any header overshoots, and it leaves the segment exactly when a
      header overshoots before any build-id note. */
  lemma WalkMeaning(b: seq<byte>)
    ensures exists ns, rest :: Splits(b, ns, rest) && Stops(rest)
    ensures forall ns, rest :: Splits(b, ns, rest) && Stops(rest) ==> Walk(b) == Verdict(ns, rest)
    ensures Walk(b) == Outside <==> exists ns, rest :: Splits(b, ns, rest) && Overshoots(rest)
    ensures forall at :: Walk(b) == Found(at) <==>
              exists ns, rest :: Splits(b, ns, rest) && Matches(rest) && at == |Concat(ns)|
  {
    var ns, rest := SplitExists(b);
    forall ns, rest | Splits(b, ns, rest) && Stops(rest) ensures Walk(b) == Verdict(ns, rest) {
      WalkFollowsSplit(b, ns, rest);
    }
  }

  // ----- on plain bytes -----

  /** The word's base-256 digits, the lowest first, are the bytes. */
  lemma WordDigits(b: seq<byte>, at: nat)
    requires at + 4 <= |b|
    ensures var v := Word(b, at);
            && v % 256 == b[at] as int && v / 256 % 256 == b[at + 1] as int
            && v / 256 / 256 % 256 == b[at + 2] as int && v / 256 / 256 / 256 == b[at + 3] as int
  {
    var v, d0, d1, d2, d3 := Word(b, at), b[at] as int, b[at + 1] as int, b[at + 2] as int, b[at + 3] as int;
    LowDigit(v, d0, d1 + 256 * (d2 + 256 * d3));
    LowDigit(d1 + 256 * (d2 + 256 * d3), d1, d2 + 256 * d3);
    LowDigit(d2 + 256 * d3, d2, d3);
  }

  lemma LowDigit(v: nat, d: nat, rest: nat)
    requires d < 256 && v == d + 256 * rest
    ensures v % 256 == d && v / 256 == rest
  {
  }

  /** The walk stops at the head of a segment exactly if these are its first 16 bytes. */
  lemma FoundAtHead(b: seq<byte>)
    ensures Walk(b) == Found(0) <==>
              && |b| >= 16 && b[..4] == [4, 0, 0, 0] && b[4..8] != [0, 0, 0, 0]
              && b[8..12] == [3, 0, 0, 0] && b[12..16] == [0x47, 0x4E, 0x55, 0]
  {
    if |b| >= 16 {
      hide Walk, Word;
      FoundOnlyIfMatches(b);
      FourBytes(b, 0, 4);
      FourBytes(b, 4, 0);
      FourBytes(b, 8, 3);
      assert b[..4] == b[0..4];
    }
  }

  lemma FourBytes(b: seq<byte>, at: nat, d: byte)
    requires at + 4 <= |b|
    ensures Word(b, at) == d as int <==> b[at..at + 4] == [d, 0, 0, 0]
  {
    hide Word;
    SmallWord(b, at, d);
    assert b[at..at + 4] == [b[at], b[at + 1], b[at + 2], b[at + 3]];
  }

  lemma SmallWord(b: seq<byte>, at: nat, d: byte)
    requires at + 4 <= |b|
    ensures Word(b, at) == d as int <==> b[at] == d && b[at + 1] == 0 && b[at + 2] == 0 && b[at + 3] == 0
  {
  }

  lemma FoundOnlyIfMatches(b: seq<byte>)
    requires |b| >= NOTE
    ensures Walk(b) == Found(0) <==> Matches(b)
  {
    if !Matches(b) && Step(b) <= |b| {
      assert Step(b) >= NHDR;
    }
  }

  /** The usual program: an ABI note of 32 bytes, then a build-id of 20. */
  lemma UsualProgram(b: seq<byte>)
    requires |b| >= 48
    requires b[..16] == [4, 0, 0, 0, 16, 0, 0, 0, 1, 0, 0, 0, 0x47, 0x4E, 0x55, 0]
    requires b[32..48] == [4, 0, 0, 0, 20, 0, 0, 0, 3, 0, 0, 0, 0x47, 0x4E, 0x55, 0]
    ensures Walk(b) == Found(32)
  {
    assert Step(b) == 32 && !Matches(b) by {
      hide Align4, BitAnd;
      assert forall i :: 0 <= i < 16 ==> b[i] == b[..16][i];
      assert Word(b, 0) == 4 && Word(b, 4) == 16 && Word(b, 8) == 1;
      AlignRoundsUp(4);
      AlignRoundsUp(16);
    }
    var tail := b[32..];
    assert Walk(tail) == Found(0) by {
      BuildIdAtHead(tail);
    }
  }

  lemma BuildIdAtHead(b: seq<byte>)
    requires |b| >= 16 && b[..16] == [4, 0, 0, 0, 20, 0, 0, 0, 3, 0, 0, 0, 0x47, 0x4E, 0x55, 0]
    ensures Walk(b) == Found(0)
  {
    hide Walk;
    var h := b[..16];
    assert b[..4] == h[..4] && b[4..8] == h[4..8] && b[8..12] == h[8..12] && b[12..16] == h[12..16];
    assert h[4..8][0] == 20;
    FoundAtHead(b);
  }

  /** A segment the walk leaves: 16 bytes whose header claims a name of 100. */
  lemma WalkCanLeave()
    ensures Walk([100] + seq(15, _ => 0)) == Outside
  {
    var b: seq<byte> := [100] + seq(15, _ => 0);
    AlignRoundsUp(100);
    AlignRoundsUp(0);
    assert Word(b, 0) == 100 && Word(b, 4) == 0 && Word(b, 8) == 0;
  }

  // ----- segments as linkers write them -----

  datatype Note = Note(kind: nat, name: seq<byte>, desc: seq<byte>)

  /** Sizes that the 32-bit rounding does not wrap. */
  predicate Encodable(n: Note) {
    n.kind < WORD && |n.name| <= WORD - 4 && |n.desc| <= WORD - 4
  }

  function EncodeWord(v: nat): (b: seq<byte>)
    requires v < WORD
    ensures |b| == 4 && Word(b, 0) == v
  {
    var v1 := v / 0x100;
    var v2 := v1 / 0x100;
    var v3 := v2 / 0x100;
    [(v % 0x100) as byte, (v1 % 0x100) as byte, (v2 % 0x100) as byte, v3 as byte]
  }

  /** Padded with zeros to the next multiple of 4. */
  function Padded(b: seq<byte>): (p: seq<byte>)
    ensures |p| % 4 == 0 && |b| <= |p| < |b| + 4 && p[..|b|] == b
  {
    if |b| % 4 == 0 then b else b + seq(4 - |b| % 4, _ => 0)
  }

  function Encode(n: Note): (b: seq<byte>)
    requires Encodable(n)
    ensures |b| >= NHDR
  {
    EncodeWord(|n.name|) + EncodeWord(|n.desc|) + EncodeWord(n.kind) + Padded(n.name) + Padded(n.desc)
  }

  function EncodeAll(ns: seq<Note>): seq<byte>
    requires forall n :: n in ns ==> Encodable(n)
  {
    if ns == [] then [] else Encode(ns[0]) + EncodeAll(ns[1..])
  }

  predicate IsBuildIdNote(n: Note) {
    n.kind == NT_GNU_BUILD_ID && n.desc != [] && n.name == GNU
  }

  /** The offset of the first build-id note. */
  function FirstBuildId(ns: seq<Note>): Search
    requires forall n :: n in ns ==> Encodable(n)
  {
    if ns == [] then NotFound
    else if IsBuildIdNote(ns[0]) then Found(0)
    else Shift(FirstBuildId(ns[1..]), |Encode(ns[0])|)
  }

  /** What the loop reads of an encoded note is what was encoded, and its step is the padded
      size the encoder used. */
  lemma HeaderDecodes(n: Note, tail: seq<byte>)
    requires Encodable(n)
    ensures var b := Encode(n) + tail;
            && |Encode(n)| == NHDR + |Padded(n.name)| + |Padded(n.desc)|
            && Word(b, 0) == |n.name| && Word(b, 4) == |n.desc| && Word(b, 8) == n.kind
            && b[NHDR..NHDR + |n.name|] == n.name
            && b[NHDR + |Padded(n.name)|..NHDR + |Padded(n.name)| + |n.desc|] == n.desc
            && Step(b) == |Encode(n)|
  {
    var w0, w1, w2 := EncodeWord(|n.name|), EncodeWord(|n.desc|), EncodeWord(n.kind);
    var p, d := Padded(n.name), Padded(n.desc);
    var b := Encode(n) + tail;
    hide Align4, Word, Padded, EncodeWord;
    Layout(w0, w1, w2, p, d, tail, b);
    assert p[..|n.name|] == n.name && d[..|n.desc|] == n.desc;
    assert b[NHDR..NHDR + |n.name|] == b[NHDR..NHDR + |p|][..|n.name|];
    assert b[NHDR + |p|..NHDR + |p| + |n.desc|] == b[NHDR + |p|..NHDR + |p| + |d|][..|n.desc|];
    PaddedIsAligned(n.name);
    PaddedIsAligned(n.desc);
  }

  lemma Layout(w0: seq<byte>, w1: seq<byte>, w2: seq<byte>, p: seq<byte>, d: seq<byte>, tail: seq<byte>, b: seq<byte>)
    requires |w0| == 4 && |w1| == 4 && |w2| == 4 && b == w0 + w1 + w2 + p + d + tail
    ensures |b| >= NHDR + |p| + |d|
    ensures Word(b, 0) == Word(w0, 0) && Word(b, 4) == Word(w1, 0) && Word(b, 8) == Word(w2, 0)
    ensures b[NHDR..NHDR + |p|] == p && b[NHDR + |p|..NHDR + |p| + |d|] == d
  {
    var h := w0 + w1 + w2;
    assert b[..NHDR] == h;
    assert forall i :: 0 <= i < 4 ==> b[i] == w0[i] && b[i + 4] == w1[i] && b[i + 8] == w2[i];
  }

  lemma PaddedIsAligned(s: seq<byte>)
    requires |s| <= WORD - 4
    ensures |Padded(s)| == Align4(|s|)
  {
    AlignRoundsUp(|s|);
  }

  /** Of every segment that encodes notes with non-wrapping sizes the loop finds the first
      build-id note, or nothing if there is none, and never leaves the segment. */
  lemma {:induction false} WalkFindsFirstBuildId(ns: seq<Note>)
    requires forall n :: n in ns ==> Encodable(n)
    ensures Walk(EncodeAll(ns)) == FirstBuildId(ns) && Walk(EncodeAll(ns)) != Outside
  {
    if ns != [] {
      var n, tail := ns[0], EncodeAll(ns[1..]);
      var b := EncodeAll(ns);
      HeaderDecodes(n, tail);
      WalkFindsFirstBuildId(ns[1..]);
      assert b[|Encode(n)|..] == tail;
      if |b| < NOTE {
        assert ns[1..] == [];
      } else {
        assert Matches(b) <==> IsBuildIdNote(n);
      }
    }
  }

  /** Where the accessors look for the identifier of a found note, and how much of it there is. */
  function DataAt(at: nat): nat {
    at + NOTE
  }

  /** The bytes `build_id_length` and `build_id_data` give access to are the note's descriptor. */
  lemma AccessorsReadDescriptor(n: Note, tail: seq<byte>)
    requires Encodable(n) && IsBuildIdNote(n)
    ensures var b := Encode(n) + tail;
            Matches(b) && NOTE + Word(b, 4) <= |b| && b[DataAt(0)..DataAt(0) + Word(b, 4)] == n.desc
  {
    HeaderDecodes(n, tail);
    assert |Padded(n.name)| == 4;
  }
}
