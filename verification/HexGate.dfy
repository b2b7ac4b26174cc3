/** The gate at attach time: look the build-id up among the loaded objects, print it in hex into
    a zeroed buffer, and compare with the expected string. */
module HexGate {
  import opened CStrings
  import opened Options
  import opened BuildId

  // ----- lookup -----

  datatype Kind = LoadSegment | NoteSegment | OtherSegment

  datatype Segment = Segment(kind: Kind, vaddr: nat, bytes: seq<byte>)

  /** A loaded object as dl_iterate_phdr presents it. */
  datatype Object = Object(name: Option<string>, addr: nat, segments: seq<Segment>)

  datatype Query = ByName(name: string) | BySymbol(base: nat)

  ghost predicate IsFirstLoad(o: Object, from: nat, i: nat) {
    && from <= i < |o.segments| && o.segments[i].kind.LoadSegment?
    && forall k :: from <= k < i ==> !o.segments[k].kind.LoadSegment?
  }

  /** The address of the first loaded segment, 0 if there is none. */
  function MapStart(o: Object, from: nat): (start: nat)
    ensures forall i: nat :: IsFirstLoad(o, from, i) ==> start == o.addr + o.segments[i].vaddr
    ensures (forall i :: from <= i < |o.segments| ==> !o.segments[i].kind.LoadSegment?) ==> start == 0
    decreases |o.segments| - from
  {
    if from >= |o.segments| then 0
    else if o.segments[from].kind.LoadSegment? then o.addr + o.segments[from].vaddr
    else MapStart(o, from + 1)
  }

  predicate Selected(o: Object, query: Query) {
    match query
    case ByName(name) => o.name == Some(name)
    case BySymbol(base) => MapStart(o, 0) == base
  }

  /** By name, the object must have that very name; by symbol, its first loaded segment must begin
      at the base address the symbol's object was loaded to. */
  lemma SelectedMeans(o: Object, query: Query)
    ensures query.ByName? ==> (Selected(o, query) <==> o.name == Some(query.name))
    ensures query.BySymbol? ==> forall i: nat ::
              IsFirstLoad(o, 0, i) ==> (Selected(o, query) <==> o.addr + o.segments[i].vaddr == query.base)
  {
  }

  datatype Lookup = NoteAt(obj: nat, seg: nat, at: nat) | NoNote | LeavesSegment

  /** The segment is one the lookup searches, and searching it gives `r`. */
  predicate Gives(objs: seq<Object>, query: Query, i: nat, j: nat, r: Search) {
    && i < |objs| && Selected(objs[i], query) && j < |objs[i].segments|
    && objs[i].segments[j].kind.NoteSegment? && Walk(objs[i].segments[j].bytes) == r
  }

  /** No searched segment before the `j`-th of the `i`-th object gives anything. */
  ghost predicate NothingBefore(objs: seq<Object>, query: Query, i: nat, j: nat) {
    forall i': nat, j': nat, r :: (i' < i || (i' == i && j' < j)) && Gives(objs, query, i', j', r) ==> r == NotFound
  }

  /** `build_id_find_nhdr_callback` under dl_iterate_phdr: the first note of the first note
      segment, in the order of objects and of their segments, that has one; the walk of an
      earlier segment may leave that segment first. */
  method FindNhdr(objs: seq<Object>, query: Query) returns (r: Lookup)
    requires forall o, s :: o in objs && s in o.segments ==> |s.bytes| < SIZE / 2
    ensures r.NoteAt? ==> Gives(objs, query, r.obj, r.seg, Found(r.at)) && NothingBefore(objs, query, r.obj, r.seg)
    ensures r.NoNote? ==> NothingBefore(objs, query, |objs|, 0)
    ensures r.LeavesSegment? ==> exists i, j :: Gives(objs, query, i, j, Outside) && NothingBefore(objs, query, i, j)
  {
    for i := 0 to |objs|
      invariant NothingBefore(objs, query, i, 0)
    {
      var o := objs[i];
      if Selected(o, query) {
        for j := 0 to |o.segments|
          invariant NothingBefore(objs, query, i, j)
        {
          if o.segments[j].kind.NoteSegment? {
            assert o.segments[j] in o.segments;
            var found := FindInSegment(o.segments[j].bytes);
            assert Gives(objs, query, i, j, found);
            match found {
              case Found(at) => return NoteAt(i, j, at);
              case Outside => return LeavesSegment;
              case NotFound =>
            }
          }
        }
      }
    }
    return NoNote;
  }

  // ----- hex -----

  const NUL: char := '\0'
  const DIGITS: string := "0123456789abcdef"

  function HexByte(b: byte): (s: string)
    ensures |s| == 2
  {
    [DIGITS[b as nat / 16], DIGITS[b as nat % 16]]
  }

  function Hex(id: seq<byte>): (s: string)
    ensures |s| == 2 * |id|
  {
    seq(2 * |id|, k requires 0 <= k < 2 * |id| => HexByte(id[k / 2])[k % 2])
  }

  /** Two digits a byte, the high one first. */
  lemma HexDigits(id: seq<byte>, k: nat)
    requires k < |id|
    ensures Hex(id)[2 * k] == "0123456789abcdef"[id[k] as nat / 16]
    ensures Hex(id)[2 * k + 1] == "0123456789abcdef"[id[k] as nat % 16]
  {
  }

  predicate IsDigit(c: char) {
    '0' <= c <= '9' || 'a' <= c <= 'f'
  }

  function DigitValue(c: char): (v: nat)
    requires IsDigit(c)
    ensures v < 16 && DIGITS[v] == c
  {
    if c <= '9' then c as int - '0' as int else c as int - 'a' as int + 10
  }

  /** A lower-case hex string of whole bytes. */
  predicate IsHex(s: string) {
    |s| % 2 == 0 && forall c :: c in s ==> IsDigit(c)
  }

  function Decode(s: string): seq<byte>
    requires IsHex(s)
  {
    seq(|s| / 2, k requires 0 <= k < |s| / 2 => Digits(s[2 * k], s[2 * k + 1]))
  }

  function Digits(c: char, d: char): byte
    requires IsDigit(c) && IsDigit(d)
  {
    (16 * DigitValue(c) + DigitValue(d)) as byte
  }

  lemma HexOfDigits(c: char, d: char)
    requires IsDigit(c) && IsDigit(d)
    ensures HexByte(Digits(c, d)) == [c, d]
  {
    var v, w := DigitValue(c), DigitValue(d);
    assert (16 * v + w) / 16 == v && (16 * v + w) % 16 == w;
  }

  lemma DigitsOfHex(b: byte)
    ensures IsDigit(HexByte(b)[0]) && IsDigit(HexByte(b)[1]) && Digits(HexByte(b)[0], HexByte(b)[1]) == b
  {
    assert forall i :: 0 <= i < 16 ==> IsDigit(DIGITS[i]) && DigitValue(DIGITS[i]) == i;
  }

  lemma HexOfDecode(s: string)
    requires IsHex(s)
    ensures Hex(Decode(s)) == s
  {
    hide HexByte, Digits, IsDigit;
    forall k | 0 <= k < |s| ensures Hex(Decode(s))[k] == s[k] {
      var i := k / 2;
      assert s[2 * i] in s && s[2 * i + 1] in s;
      HexOfDigits(s[2 * i], s[2 * i + 1]);
    }
  }

  lemma HexIsHex(id: seq<byte>)
    ensures IsHex(Hex(id))
  {
    hide HexByte, IsDigit;
    forall k | 0 <= k < 2 * |id| ensures IsDigit(Hex(id)[k]) {
      DigitsOfHex(id[k / 2]);
    }
  }

  lemma DecodeOfHex(id: seq<byte>)
    ensures IsHex(Hex(id)) && Decode(Hex(id)) == id
  {
    hide HexByte, Digits, IsDigit;
    HexIsHex(id);
    forall k | 0 <= k < |id| ensures Decode(Hex(id))[k] == id[k] {
      DigitsOfHex(id[k]);
      assert Hex(id)[2 * k] == HexByte(id[k])[0] && Hex(id)[2 * k + 1] == HexByte(id[k])[1];
    }
  }

  /** For an expected string that is whole bytes of lower-case hex, equal strings are equal
      identifiers; no other string is the hex of any identifier. */
  lemma HexEqualIffBytesEqual(id: seq<byte>, expected: string)
    ensures Hex(id) == expected <==> IsHex(expected) && Decode(expected) == id
  {
    DecodeOfHex(id);
    if IsHex(expected) {
      HexOfDecode(expected);
    }
  }

  // ----- printing -----

  /** What the buffer holds up to its first NUL. */
  ghost predicate HoldsText(buf: array<char>, s: string)
    reads buf
  {
    |s| < buf.Length && buf[..|s|] == s && NUL !in s && buf[|s|] == NUL
  }

  method StrLen(buf: array<char>, ghost s: string) returns (n: nat)
    requires HoldsText(buf, s)
    ensures n == |s|
  {
    assert forall k :: 0 <= k < |s| ==> buf[k] == buf[..|s|][k] && s[k] in s;
    n := 0;
    while buf[n] != NUL
      invariant n <= |s|
      decreases |s| - n
    {
      n := n + 1;
    }
  }

  /** The size the code allocates: `len*2+100` in 32-bit arithmetic. */
  function BufferSize(len: nat): nat {
    (len * 2 + 100) % WORD
  }

  datatype Printed = Printed(buf: array<char>) | Overrun

  /** The printing loop; `Overrun` where sprintf would write past the end of the buffer. */
  method PrintHex(id: seq<byte>) returns (r: Printed)
    requires |id| < WORD
    ensures r.Overrun? <==> |id| > 0x7FFF_FFCD
    ensures r.Printed? ==> fresh(r.buf) && HoldsText(r.buf, Hex(id)) && r.buf.Length == 2 * |id| + 100
  {
    hide Hex, BufferSize;
    SizeSuffices(|id|);
    var buf := new char[BufferSize(|id|)](_ => NUL);
    if buf.Length == 0 {
      return Overrun;   // the very first strlen reads beyond an empty buffer
    }
    for i := 0 to |id|
      invariant HoldsText(buf, Hex(id[..i]))
      invariant forall k :: 2 * i <= k < buf.Length ==> buf[k] == NUL
    {
      var at := StrLen(buf, Hex(id[..i]));
      if at + 2 >= buf.Length {
        return Overrun;
      }
      ghost var was := buf[..at];
      buf[at] := DIGITS[id[i] as nat / 16];
      buf[at + 1] := DIGITS[id[i] as nat % 16];
      buf[at + 2] := NUL;
      HexNext(id, i);
      assert buf[..at] == was;
      assert buf[..at + 2] == was + HexByte(id[i]);
    }
    assert id[..|id|] == id;
    return Printed(buf);
  }

  lemma HasNoNul(s: string)
    requires IsHex(s)
    ensures NUL !in s
  {
  }

  lemma HexNext(id: seq<byte>, i: nat)
    requires i < |id|
    ensures Hex(id[..i + 1]) == Hex(id[..i]) + HexByte(id[i]) && NUL !in Hex(id[..i + 1])
  {
    hide IsDigit;
    var s := Hex(id[..i + 1]);
    assert s[..2 * i] == Hex(id[..i]);
    assert s[2 * i..] == HexByte(id[i]);
    HexIsHex(id[..i + 1]);
    HasNoNul(s);
  }

  lemma SizeSuffices(len: nat)
    requires len < WORD
    ensures len <= 0x7FFF_FFCD <==> BufferSize(len) > 2 * len
    ensures len <= 0x7FFF_FFCD ==> BufferSize(len) == 2 * len + 100
  {
  }

  // ----- the gate -----

  /** The identifier of a found note, if the segment holds all of what its header claims. */
  function Identifier(b: seq<byte>, at: nat): (id: Option<seq<byte>>)
    requires at + NOTE <= |b|
    ensures id.Some? ==> |id.value| < WORD
  {
    var len := Word(b, at + 4);
    if DataAt(at) + len <= |b| then Some(b[DataAt(at)..DataAt(at) + len]) else None
  }

  /** The bytes after the 16 of the header and the name, as many as the header's second word says. */
  lemma IdentifierBytes(b: seq<byte>, at: nat)
    requires at + 16 <= |b|
    ensures var len := b[at + 4] as nat + 0x100 * b[at + 5] as nat + 0x1_0000 * b[at + 6] as nat + 0x100_0000 * b[at + 7] as nat;
            Identifier(b, at) == if at + 16 + len <= |b| then Some(b[at + 16..at + 16 + len]) else None
  {
  }

  /** Of a note that a linker wrote, wherever it is in its segment, it is the descriptor. */
  lemma IdentifierIsDescriptor(before: seq<byte>, n: Note, tail: seq<byte>)
    requires Encodable(n) && IsBuildIdNote(n)
    ensures var b := before + Encode(n) + tail;
            |before| + NOTE <= |b| && Identifier(b, |before|) == Some(n.desc)
  {
    hide Encode, Encodable, IsBuildIdNote, Matches, Word, Step;
    var b, note := before + Encode(n) + tail, Encode(n) + tail;
    AccessorsReadDescriptor(n, tail);
    HeaderDecodes(n, tail);
    assert b == before + note && b[|before|..] == note;
    WordsLocal(b, |before|);
    var len := |n.desc|;
    assert b[|before| + NOTE..|before| + NOTE + len] == note[NOTE..NOTE + len];
  }

  /** What `lua_resty_ffi_init` returns, or `Undefined` where it would touch memory that is not
      the segment's or the buffer's. */
  datatype Verdict = Code(rc: int) | Undefined

  /** strcmp(buf, expected) == 0. */
  method Equals(buf: array<char>, ghost s: string, expected: string) returns (eq: bool)
    requires HoldsText(buf, s) && NUL !in expected
    ensures eq <==> s == expected
  {
    var i := 0;
    while i < |expected| && buf[i] == expected[i]
      invariant i <= |expected| && i <= |s| && s[..i] == expected[..i]
    {
      assert expected[i] in expected;
      assert buf[i] == buf[..|s|][i];
      i := i + 1;
    }
    eq := i == |expected| && buf[i] == NUL;
    if i < |s| {
      assert buf[i] == buf[..|s|][i] && s[i] in s;
    }
  }

  /** The first note segment of the main program that gives anything gives a note at `at`. */
  ghost predicate FirstFound(objs: seq<Object>, i: nat, j: nat, at: nat) {
    && Gives(objs, ByName(""), i, j, Found(at)) && NothingBefore(objs, ByName(""), i, j)
    && at + NOTE <= |objs[i].segments[j].bytes|
  }

  ghost predicate AllEncodable(ns: seq<Note>) {
    forall n :: n in ns ==> Encodable(n)
  }

  /** The segment is a sequence of notes, none of them a build-id. */
  ghost predicate HasNoBuildId(b: seq<byte>) {
    exists ns :: AllEncodable(ns) && b == EncodeAll(ns) && forall n :: n in ns ==> !IsBuildIdNote(n)
  }

  ghost predicate IsNoteOfMain(objs: seq<Object>, i: nat, j: nat) {
    i < |objs| && objs[i].name == Some("") && j < |objs[i].segments| && objs[i].segments[j].kind.NoteSegment?
  }

  /** The first build-id of the main program: note `k` of its note segment `j`, which encodes
      `ns`, its earlier note segments having none. */
  ghost predicate IsBuildIdOfMain(objs: seq<Object>, i: nat, j: nat, ns: seq<Note>, k: nat) {
    && IsNoteOfMain(objs, i, j) && AllEncodable(ns) && objs[i].segments[j].bytes == EncodeAll(ns)
    && k < |ns| && IsBuildIdNote(ns[k]) && (forall k' :: 0 <= k' < k ==> !IsBuildIdNote(ns[k']))
    && forall i': nat, j': nat :: (i' < i || (i' == i && j' < j)) && IsNoteOfMain(objs, i', j') ==>
         HasNoBuildId(objs[i'].segments[j'].bytes)
  }

  lemma {:induction false} FirstAmong(ns: seq<Note>, k: nat)
    requires AllEncodable(ns) && k < |ns| && IsBuildIdNote(ns[k]) && forall k' :: 0 <= k' < k ==> !IsBuildIdNote(ns[k'])
    ensures AllEncodable(ns[..k]) && AllEncodable(ns[k + 1..])
    ensures FirstBuildId(ns) == Found(|EncodeAll(ns[..k])|)
    ensures EncodeAll(ns) == EncodeAll(ns[..k]) + Encode(ns[k]) + EncodeAll(ns[k + 1..])
  {
    hide Encode, Encodable, IsBuildIdNote;
    if k > 0 {
      FirstAmong(ns[1..], k - 1);
      var rest := ns[1..];
      assert rest[..k - 1] == ns[..k][1..] && rest[k..] == ns[k + 1..] && rest[k - 1] == ns[k];
      assert EncodeAll(ns[..k]) == Encode(ns[0]) + EncodeAll(rest[..k - 1]);
      assert EncodeAll(ns) == Encode(ns[0]) + (EncodeAll(rest[..k - 1]) + Encode(ns[k]) + EncodeAll(ns[k + 1..]));
    } else {
      assert ns[..0] == [];
    }
  }

  lemma {:induction false} NoneAmong(ns: seq<Note>)
    requires AllEncodable(ns) && forall n :: n in ns ==> !IsBuildIdNote(n)
    ensures FirstBuildId(ns) == NotFound
  {
    if ns != [] {
      NoneAmong(ns[1..]);
    }
  }

  /** The lookup can only stop at that note, and its identifier is the note's descriptor. */
  lemma MainIsFound(objs: seq<Object>, i: nat, j: nat, ns: seq<Note>, k: nat)
    requires IsBuildIdOfMain(objs, i, j, ns, k)
    ensures var at := |EncodeAll(ns[..k])|;
            && AllEncodable(ns[..k]) && FirstFound(objs, i, j, at)
            && Identifier(objs[i].segments[j].bytes, at) == Some(ns[k].desc)
  {
    FirstAmong(ns, k);
    WalkFindsFirstBuildId(ns);
    IdentifierIsDescriptor(EncodeAll(ns[..k]), ns[k], EncodeAll(ns[k + 1..]));
    forall i': nat, j': nat, r | (i' < i || (i' == i && j' < j)) && Gives(objs, ByName(""), i', j', r) ensures r == NotFound {
      assert IsNoteOfMain(objs, i', j');
      var ns' :| AllEncodable(ns') && objs[i'].segments[j'].bytes == EncodeAll(ns') && forall n :: n in ns' ==> !IsBuildIdNote(n);
      WalkFindsFirstBuildId(ns');
      NoneAmong(ns');
    }
  }

  /** Of two segments before which there is nothing, only one gives anything. */
  lemma FirstIsUnique(objs: seq<Object>, query: Query, i: nat, j: nat, i': nat, j': nat, r: Search, r': Search)
    requires Gives(objs, query, i, j, r) && r != NotFound && NothingBefore(objs, query, i, j)
    requires Gives(objs, query, i', j', r') && r' != NotFound && NothingBefore(objs, query, i', j')
    ensures i == i' && j == j' && r == r'
  {
  }

  /** Whenever the main program has a build-id, the lookup stops there. */
  lemma MainDecides(objs: seq<Object>, note: Lookup)
    requires note.NoteAt? ==> Gives(objs, ByName(""), note.obj, note.seg, Found(note.at)) && NothingBefore(objs, ByName(""), note.obj, note.seg)
    requires note.NoNote? ==> NothingBefore(objs, ByName(""), |objs|, 0)
    requires note.LeavesSegment? ==> exists i, j :: Gives(objs, ByName(""), i, j, Outside) && NothingBefore(objs, ByName(""), i, j)
    ensures forall i: nat, j: nat, ns: seq<Note>, k: nat :: IsBuildIdOfMain(objs, i, j, ns, k) ==>
              && note.NoteAt? && note.obj < |objs| && note.seg < |objs[note.obj].segments|
              && var b := objs[note.obj].segments[note.seg].bytes;
                 note.at + NOTE <= |b| && Identifier(b, note.at) == Some(ns[k].desc)
  {
    hide NothingBefore, Identifier, AllEncodable, EncodeAll, Walk, Selected, HasNoBuildId, Encodable;
    forall i: nat, j: nat, ns: seq<Note>, k: nat | IsBuildIdOfMain(objs, i, j, ns, k)
      ensures note.NoteAt? && note.obj < |objs| && note.seg < |objs[note.obj].segments|
      ensures var b := objs[note.obj].segments[note.seg].bytes;
              note.at + NOTE <= |b| && Identifier(b, note.at) == Some(ns[k].desc)
    {
      MainIsFound(objs, i, j, ns, k);
      var at := |EncodeAll(ns[..k])|;
      match note
      case NoteAt(i', j', at') => FirstIsUnique(objs, ByName(""), i, j, i', j', Found(at), Found(at'));
      case NoNote => NothingAtAll(objs, ByName(""), i, j, Found(at));
      case LeavesSegment =>
        var i', j' :| Gives(objs, ByName(""), i', j', Outside) && NothingBefore(objs, ByName(""), i', j');
        FirstIsUnique(objs, ByName(""), i, j, i', j', Found(at), Outside);
    }
  }

  lemma NothingAtAll(objs: seq<Object>, query: Query, i: nat, j: nat, r: Search)
    requires NothingBefore(objs, query, |objs|, 0) && Gives(objs, query, i, j, r)
    ensures r == NotFound
  {
  }

  /** `lua_resty_ffi_init` on the objects of the process and the expected build-id: -1 without a
      note of the main program, 0 when its identifier is the expected one, -2 when it is not. */
  method Gate(objs: seq<Object>, expected: string) returns (r: Verdict)
    requires NUL !in expected
    requires forall o, s :: o in objs && s in o.segments ==> |s.bytes| < SIZE / 2
    ensures forall i: nat, j: nat, ns: seq<Note>, k: nat :: IsBuildIdOfMain(objs, i, j, ns, k) && |ns[k].desc| <= 0x7FFF_FFCD ==>
              r == Code(if expected == Hex(ns[k].desc) then 0 else -2)
    ensures r == Code(-1) ==> NothingBefore(objs, ByName(""), |objs|, 0)
    ensures r.Code? ==> r.rc in {0, -1, -2}
    ensures r.Code? && r.rc != -1 ==>
              exists i: nat, j: nat, at: nat ::
                && FirstFound(objs, i, j, at)
                && var id := Identifier(objs[i].segments[j].bytes, at);
                   id.Some? && |id.value| <= 0x7FFF_FFCD && (r.rc == 0 <==> IsHex(expected) && Decode(expected) == id.value)
    ensures r.Undefined? ==>
              || (exists i: nat, j: nat :: Gives(objs, ByName(""), i, j, Outside) && NothingBefore(objs, ByName(""), i, j))
              || (exists i: nat, j: nat, at: nat ::
                    && FirstFound(objs, i, j, at)
                    && var id := Identifier(objs[i].segments[j].bytes, at); id.Some? ==> |id.value| > 0x7FFF_FFCD)
  {
    hide IsBuildIdOfMain, NothingBefore, Hex, Identifier, Gives, AllEncodable, Encodable, IsBuildIdNote, EncodeAll;
    var note := FindNhdr(objs, ByName(""));
    MainDecides(objs, note);
    if note.LeavesSegment? {
      return Undefined;
    }
    if note.NoNote? {
      return Code(-1);
    }
    var b := objs[note.obj].segments[note.seg].bytes;
    FoundIsInside(b, note.at);
    assert FirstFound(objs, note.obj, note.seg, note.at);
    var id := Identifier(b, note.at);
    if id.None? {
      return Undefined;
    }
    var printed := PrintHex(id.value);
    if printed.Overrun? {
      return Undefined;
    }
    HexEqualIffBytesEqual(id.value, expected);
    var eq := Equals(printed.buf, Hex(id.value), expected);
    return Code(if eq then 0 else -2);
  }

  lemma {:induction false} FoundIsInside(b: seq<byte>, at: nat)
    requires Walk(b) == Found(at)
    ensures at + NOTE <= |b|
    decreases |b|
  {
    if !Matches(b) {
      FoundIsInside(b[Step(b)..], at - Step(b));
    }
  }
}
