/** DNSPacketWriter::xfrLabel: writing a name with compression against the label map. */
module NameWriter {
  import opened Bytes
  import opened Names
  import opened Wire

  /** One remembered suffix: its text without trailing dot, and its offset in the message. */
  datatype Entry = Entry(name: seq<byte>, offset: nat)

  /** The offset fits a pointer and decodes to the remembered name, which has no dot at its end, with fewer
      pointers than labels; if only lower-case names have been written (low), to lower-case labels. */
  ghost predicate EntryOk(img: Image, e: Entry, low: bool)
  {
    var ls := Tokens(e.name);
    e.offset < 16384 && ls != [] && e.name == Dotted(ls) && NamedLow(img, e.offset, ls, |ls| - 1, low)
  }

  ghost predicate MapOk(img: Image, lmap: seq<Entry>, low: bool)
  {
    forall i :: 0 <= i < |lmap| ==> EntryOk(img, lmap[i], low)
  }

  lemma MapMono(a: Image, b: Image, lmap: seq<Entry>, low: bool)
    requires Agree(a, b) && MapOk(a, lmap, low)
    ensures MapOk(b, lmap, low)
  {
    forall i | 0 <= i < |lmap|
      ensures EntryOk(b, lmap[i], low)
    {
      assert EntryOk(a, lmap[i], low);
      DecodeMono(a, b, lmap[i].offset, |Tokens(lmap[i].name)| - 1);
    }
  }

  lemma MapWeaken(img: Image, lmap: seq<Entry>, low: bool, low': bool)
    requires MapOk(img, lmap, low) && (low' ==> low)
    ensures MapOk(img, lmap, low')
  {
    forall i | 0 <= i < |lmap|
      ensures EntryOk(img, lmap[i], low')
    {
      assert EntryOk(img, lmap[i], low);
    }
  }

  /** A compression pointer: two bits set, then the offset. */
  function Pointer(offset: nat): (r: seq<byte>)
    requires offset < 16384
    ensures |r| == 2
  {
    [(offset + 0xc000) / 256, (offset + 0xc000) % 256]
  }

  /** The remembered text of the suffix that starts at from. */
  function Chopped(text: seq<byte>, from: nat): (r: seq<byte>)
    requires from < |text|
  {
    if text[|text| - 1] == DOT then text[from..|text| - 1] else text[from..]
  }

  lemma ChoppedTokens(text: seq<byte>, from: nat)
    requires from < |text| && GoodLabels(Parts(text, from, from))
    ensures Tokens(Chopped(text, from)) == Parts(text, from, from)
  {
    var t := text[from..];
    PartsShift(text, from, 0, 0);
    if text[|text| - 1] == DOT {
      PartsDedot(t, 0, 0);
      assert t[..|t| - 1] == Chopped(text, from);
    }
  }

  lemma ChoppedDotted(text: seq<byte>, from: nat)
    requires from < |text|
    ensures Chopped(text, from) == Dotted(Parts(text, from, from))
  {
    DottedParts(text, from, from);
  }

  /** Linear search for a suffix written before, up to case. */
  method Find(lmap: seq<Entry>, name: seq<byte>) returns (i: nat)
    ensures i <= |lmap|
    ensures i < |lmap| ==> SameText(lmap[i].name, name)
    ensures forall j :: 0 <= j < i ==> !SameText(lmap[j].name, name)
  {
    i := 0;
    while i < |lmap| && !SameText(lmap[i].name, name)
      invariant i <= |lmap|
      invariant forall j :: 0 <= j < i ==> !SameText(lmap[j].name, name)
    {
      i := i + 1;
    }
  }

  /** Labels ls[0..|starts|] stand at the given places, one after the other, and end at q. */
  ghost predicate Laid(img: Image, ls: seq<seq<byte>>, starts: seq<nat>, q: nat)
  {
    && |starts| <= |ls|
    && forall j :: 0 <= j < |starts| ==>
         GoodLabel(ls[j]) && LabelAt(img, starts[j], ls[j]) && NextStart(starts, q, j) == starts[j] + 1 + |ls[j]|
  }

  ghost predicate LabelAt(img: Image, pos: nat, l: seq<byte>)
  {
    pos < |img| && img[pos] == |l| && BytesAt(img, pos + 1, l)
  }

  function NextStart(starts: seq<nat>, q: nat, j: nat): (r: nat)
    requires j < |starts|
  {
    if j + 1 < |starts| then starts[j + 1] else q
  }

  lemma LabelStep(img: Image, pos: nat, l: seq<byte>, hops: nat)
    requires LabelAt(img, pos, l) && GoodLabel(l)
    requires Decode(img, pos + 1 + |l|, hops).Name?
    ensures Decode(img, pos, hops) == Name([l] + Decode(img, pos + 1 + |l|, hops).labels)
    ensures NameEnd(img, pos) == NameEnd(img, pos + 1 + |l|)
  {
    assert img[pos + 1..pos + 1 + |l|] == l;
  }

  /** A name that continues with the tail at q decodes, from its j-th label on, to the rest. */
  lemma {:induction false} LaidDecode(img: Image, ls: seq<seq<byte>>, starts: seq<nat>, q: nat, hops: nat, j: nat,
                                      low: bool)
    requires Laid(img, ls, starts, q) && j < |starts|
    requires NamedLow(img, q, ls[|starts|..], hops, low) && (low ==> LowerLabels(ls))
    ensures NamedLow(img, starts[j], ls[j..], hops, low)
    ensures NameEnd(img, starts[j]) == NameEnd(img, q)
    decreases |starts| - j
  {
    var next := starts[j] + 1 + |ls[j]|;
    LaidFacts(img, ls, starts, q, j);
    hide *;
    if j + 1 < |starts| {
      LaidDecode(img, ls, starts, q, hops, j + 1, low);
    }
    LabelBefore(img, starts[j], ls, j, hops, low);
  }

  lemma LaidFacts(img: Image, ls: seq<seq<byte>>, starts: seq<nat>, q: nat, j: nat)
    requires Laid(img, ls, starts, q) && j < |starts|
    ensures |starts| <= |ls| && GoodLabel(ls[j]) && LabelAt(img, starts[j], ls[j])
    ensures starts[j] + 1 + |ls[j]| == if j + 1 < |starts| then starts[j + 1] else q
  {
  }

  lemma LabelBefore(img: Image, pos: nat, ls: seq<seq<byte>>, j: nat, hops: nat, low: bool)
    requires j < |ls| && GoodLabel(ls[j]) && LabelAt(img, pos, ls[j])
    requires NamedLow(img, pos + 1 + |ls[j]|, ls[j + 1..], hops, low) && (low ==> LowerLabels(ls))
    ensures NamedLow(img, pos, ls[j..], hops, low)
    ensures NameEnd(img, pos) == NameEnd(img, pos + 1 + |ls[j]|)
  {
    LabelStep(img, pos, ls[j], hops);
    hide Decode, LabelAt, GoodLabel;
    assert [ls[j]] + ls[j + 1..] == ls[j..];
    SameLabelsConcat([ls[j]], [ls[j]], Decode(img, pos + 1 + |ls[j]|, hops).labels, ls[j + 1..]);
  }

  lemma LaidMono(a: Image, b: Image, ls: seq<seq<byte>>, starts: seq<nat>, q: nat)
    requires Agree(a, b) && Laid(a, ls, starts, q)
    ensures Laid(b, ls, starts, q)
  {
    forall j | 0 <= j < |starts|
      ensures LabelAt(b, starts[j], ls[j])
    {
      assert LabelAt(a, starts[j], ls[j]);
      BytesMono(a, b, starts[j] + 1, ls[j]);
    }
  }

  lemma LaidAppend(img: Image, ls: seq<seq<byte>>, starts: seq<nat>, q: nat)
    requires Laid(img, ls, starts, q) && |starts| < |ls|
    requires GoodLabel(ls[|starts|]) && LabelAt(img, q, ls[|starts|])
    ensures Laid(img, ls, starts + [q], q + 1 + |ls[|starts|]|)
  {
    var starts' := starts + [q];
    var q' := q + 1 + |ls[|starts|]|;
    forall j | 0 <= j < |starts'|
      ensures NextStart(starts', q', j) == starts'[j] + 1 + |ls[j]| && LabelAt(img, starts'[j], ls[j])
    {
      if j < |starts| {
        assert NextStart(starts', q', j) == NextStart(starts, q, j);
      }
    }
  }

  /** The pointer written for a remembered suffix stands for the labels still to be written. */
  lemma PointerTail(a: Image, b: Image, q: nat, e: Entry, chopped: seq<byte>, low: bool)
    requires Agree(a, b) && EntryOk(a, e, low) && SameText(e.name, chopped)
    requires q + 1 < |b| && b[q] == 0xc0 + e.offset / 256 && b[q + 1] == e.offset % 256
    ensures NamedLow(b, q, Tokens(chopped), |Tokens(chopped)|, low)
    ensures NameEnd(b, q) == q + 2
  {
    var ls, rest := Tokens(e.name), Tokens(chopped);
    SameTextSameTokens(e.name, chopped);
    assert |ls| == |LowerAll(ls)| == |rest|;
    assert Target(b, q) == e.offset;
    DecodeMono(a, b, e.offset, |ls| - 1);
    assert Decode(b, q, |rest|) == Decode(b, e.offset, |rest| - 1);
  }

  /** Uncompressed form of the labels from the n-th on. */
  function Encoded(ls: seq<seq<byte>>, n: nat): (r: seq<byte>)
    requires n <= |ls| && GoodLabels(ls)
    decreases |ls| - n
  {
    if n == |ls| then [0] else [|ls[n]|] + ls[n] + Encoded(ls, n + 1)
  }

  /** Uncompressed labels decode to themselves, without any pointer. */
  lemma {:induction false} EncodedDecode(img: Image, pos: nat, ls: seq<seq<byte>>, n: nat)
    requires n <= |ls| && GoodLabels(ls) && BytesAt(img, pos, Encoded(ls, n))
    ensures Decode(img, pos, 0) == Name(ls[n..])
    ensures NameEnd(img, pos) == pos + |Encoded(ls, n)|
    decreases |ls| - n
  {
    hide Encoded, Decode, NameEnd, BytesAt;
    var enc := Encoded(ls, n);
    EncodedStarts(ls, n);
    if n == |ls| {
      ZeroName(img, pos);
      assert ls[n..] == [];
    } else {
      var l, rest := ls[n], Encoded(ls, n + 1);
      SubBytes(img, pos, enc, 1 + |l|, rest);
      SubBytes(img, pos, enc, 1, l);
      FirstByte(img, pos, enc);
      EncodedDecode(img, pos + 1 + |l|, ls, n + 1);
      LabelStep(img, pos, l, 0);
      assert ls[n..] == [l] + ls[n + 1..];
    }
  }

  lemma EncodedStarts(ls: seq<seq<byte>>, n: nat)
    requires n <= |ls| && GoodLabels(ls)
    ensures n == |ls| ==> Encoded(ls, n) == [0]
    ensures n < |ls| ==> Encoded(ls, n) == [|ls[n]|] + ls[n] + Encoded(ls, n + 1)
  {
  }

  lemma ZeroName(img: Image, pos: nat)
    requires BytesAt(img, pos, [0])
    ensures Decode(img, pos, 0) == Name([]) && NameEnd(img, pos) == pos + 1
  {
    FirstByte(img, pos, [0]);
  }

  lemma FirstByte(img: Image, pos: nat, s: seq<byte>)
    requires BytesAt(img, pos, s) && s != []
    ensures pos < |img| && img[pos] == s[0]
  {
    assert img[pos + 0] == s[0];
  }

  lemma SubBytes(img: Image, pos: nat, s: seq<byte>, k: nat, t: seq<byte>)
    requires BytesAt(img, pos, s) && k + |t| <= |s| && s[k..k + |t|] == t
    ensures BytesAt(img, pos + k, t)
  {
    forall i | 0 <= i < |t|
      ensures img[pos + k + i] == t[i]
    {
      assert img[pos + (k + i)] == s[k + i] == s[k..k + |t|][i];
    }
  }

  /** The entries added for a name: its k-th suffix at the place of its k-th label. */
  ghost predicate Added(text: seq<byte>, parts: seq<(nat, nat)>, starts: seq<nat>, added: seq<Entry>)
  {
    && |added| <= |starts| <= |parts|
    && forall m :: 0 <= m < |added| ==>
         parts[m].0 < |text| && added[m] == Entry(Chopped(text, parts[m].0), starts[m]) && starts[m] < 16384
  }

  lemma AddedOne(img: Image, text: seq<byte>, parts: seq<(nat, nat)>, starts: seq<nat>, q: nat, hops: nat, m: nat,
                 low: bool)
    requires GoodLabels(Tokens(text)) && m < |parts| && PartOk(text, Tokens(text), m, parts[m])
    requires Laid(img, Tokens(text), starts, q) && m < |starts| <= |Tokens(text)|
    requires NamedLow(img, q, Tokens(text)[|starts|..], hops, low) && (low ==> LowerLabels(Tokens(text)))
    requires hops <= |Tokens(text)| - |starts|
    requires starts[m] < 16384
    ensures EntryOk(img, Entry(Chopped(text, parts[m].0), starts[m]), low)
  {
    hide Decode, Laid, Parts;
    var ls := Tokens(text);
    assert GoodLabels(ls[m..]);
    ChoppedTokens(text, parts[m].0);
    ChoppedDotted(text, parts[m].0);
    hide Chopped, Dotted;
    LaidDecode(img, ls, starts, q, hops, m, low);
    DecodeMore(img, starts[m], hops, |ls[m..]| - 1);
  }

  /** Once the tail of the name stands, every added entry decodes to its suffix. */
  lemma AddedOk(img: Image, text: seq<byte>, parts: seq<(nat, nat)>, starts: seq<nat>, q: nat, hops: nat,
                added: seq<Entry>, low: bool)
    requires GoodLabels(Tokens(text)) && |parts| == |Tokens(text)|
    requires forall k :: 0 <= k < |parts| ==> PartOk(text, Tokens(text), k, parts[k])
    requires Laid(img, Tokens(text), starts, q)
    requires NamedLow(img, q, Tokens(text)[|starts|..], hops, low) && (low ==> LowerLabels(Tokens(text)))
    requires hops <= |parts| - |starts|
    requires Added(text, parts, starts, added)
    ensures MapOk(img, added, low)
  {
    hide Decode, Laid, PartOk, EntryOk, NamedAt, Chopped, Tokens;
    forall m | 0 <= m < |added|
      ensures EntryOk(img, added[m], low)
    {
      AddedOne(img, text, parts, starts, q, hops, m, low);
    }
  }

  lemma MapConcat(img: Image, a: seq<Entry>, b: seq<Entry>, low: bool)
    requires MapOk(img, a, low) && MapOk(img, b, low)
    ensures MapOk(img, a + b, low)
  {
    hide EntryOk;
  }

  /** What a written name is: it decodes to the labels, and the map stays correct. */
  ghost predicate Written(img: Image, text: seq<byte>, out: seq<byte>, lmap: seq<Entry>, low: bool)
  {
    var ls := Labels(text);
    && NamedLow(img + out, |img|, ls, |ls|, low)
    && NameEnd(img + out, |img|) == |img| + |out|
    && MapOk(img + out, lmap, low)
  }

  /** Closing a name: the tail decodes, so the whole name and the added entries do. */
  lemma Finish(img: Image, out: seq<byte>, lmap: seq<Entry>, text: seq<byte>, parts: seq<(nat, nat)>, starts: seq<nat>,
               q: nat, added: seq<Entry>, low: bool)
    requires text != [DOT] && GoodLabels(Tokens(text)) && |parts| == |Tokens(text)|
    requires forall k :: 0 <= k < |parts| ==> PartOk(text, Tokens(text), k, parts[k])
    requires MapOk(img, lmap, low) && Added(text, parts, starts, added)
    requires Laid(img + out, Tokens(text), starts, q) && (if starts == [] then q else starts[0]) == |img|
    requires NamedLow(img + out, q, Tokens(text)[|starts|..], |parts| - |starts|, low)
    requires (low ==> LowerLabels(Tokens(text)))
    requires NameEnd(img + out, q) == |img| + |out|
    ensures Written(img, text, out, lmap + added, low)
  {
    hide Decode, Laid, Added, EntryOk, PartOk;
    var b, ls := img + out, Tokens(text);
    LaidLength(b, ls, starts, q);
    var hops := |parts| - |starts|;
    AddedOk(b, text, parts, starts, q, hops, added, low);
    MapMono(img, b, lmap, low);
    MapConcat(b, lmap, added, low);
    if starts == [] {
      assert ls[0..] == ls;
    } else {
      LaidDecode(b, ls, starts, q, hops, 0, low);
      assert ls[0..] == ls;
      DecodeMore(b, |img|, hops, |ls|);
    }
  }

  lemma LaidLength(img: Image, ls: seq<seq<byte>>, starts: seq<nat>, q: nat)
    requires Laid(img, ls, starts, q)
    ensures |starts| <= |ls|
  {
  }

  /** A suffix found in the map was remembered for an earlier name: the ones just added are longer. */
  lemma FoundOld(text: seq<byte>, parts: seq<(nat, nat)>, starts: seq<nat>, lmap: seq<Entry>, added: seq<Entry>, i: nat,
                 k: nat)
    requires Added(text, parts, starts, added) && |starts| == k < |parts| && parts[k].0 < |text|
    requires forall j, m :: 0 <= j < m < |parts| ==> parts[j].0 < parts[m].0
    requires i < |lmap + added| && SameText((lmap + added)[i].name, Chopped(text, parts[k].0))
    ensures i < |lmap|
  {
    var chopped := Chopped(text, parts[k].0);
    forall m | 0 <= m < |added|
      ensures |Lower(added[m].name)| > |Lower(chopped)|
    {
      assert added[m].name == Chopped(text, parts[m].0);
    }
    assert |Lower((lmap + added)[i].name)| == |Lower(chopped)|;
  }

  lemma LayLabel(img: Image, out: seq<byte>, ls: seq<seq<byte>>, starts: seq<nat>, part: seq<byte>)
    requires Laid(img + out, ls, starts, |img| + |out|) && |starts| < |ls|
    requires ls[|starts|] == part && GoodLabel(part)
    ensures Laid(img + (out + [|part|] + part), ls, starts + [|img| + |out|], |img| + |out| + 1 + |part|)
  {
    hide Laid;
    var b := img + (out + [|part|] + part);
    var q := |img| + |out|;
    assert Agree(img + out, b);
    LaidMono(img + out, b, ls, starts, q);
    assert LabelAt(b, q, part);
    LaidAppend(b, ls, starts, q);
  }

  lemma EncodedStep(ls: seq<seq<byte>>, out: seq<byte>, k: nat, part: seq<byte>)
    requires GoodLabels(ls) && k < |ls| && ls[k] == part
    requires Encoded(ls, 0) == out + Encoded(ls, k)
    ensures Encoded(ls, 0) == (out + [|part|] + part) + Encoded(ls, k + 1)
  {
    assert out + ([|part|] + part + Encoded(ls, k + 1)) == (out + [|part|] + part) + Encoded(ls, k + 1);
  }

  lemma OffsetFits(img: Image, lmap: seq<Entry>, i: nat, low: bool)
    requires MapOk(img, lmap, low) && i < |lmap|
    ensures lmap[i].offset < 16384
  {
    assert EntryOk(img, lmap[i], low);
  }

  lemma AddStart(text: seq<byte>, parts: seq<(nat, nat)>, starts: seq<nat>, added: seq<Entry>, start: nat)
    requires Added(text, parts, starts, added) && |starts| < |parts|
    ensures Added(text, parts, starts + [start], added)
  {
  }

  lemma AddEntry(text: seq<byte>, parts: seq<(nat, nat)>, starts: seq<nat>, added: seq<Entry>, start: nat)
    requires Added(text, parts, starts, added) && |added| == |starts| < |parts| && start < 16384
    requires parts[|added|].0 < |text|
    ensures Added(text, parts, starts + [start], added + [Entry(Chopped(text, parts[|added|].0), start)])
  {
    hide Chopped;
  }

  /** The name ends in a pointer to a remembered suffix. */
  lemma FinishPointer(img: Image, before: seq<byte>, out: seq<byte>, lmap: seq<Entry>, text: seq<byte>,
                      parts: seq<(nat, nat)>, starts: seq<nat>, added: seq<Entry>, i: nat, low: bool)
    requires low ==> LowerLabels(Tokens(text))
    requires text != [DOT] && GoodLabels(Tokens(text)) && |parts| == |Tokens(text)| && |starts| < |parts|
    requires forall k :: 0 <= k < |parts| ==> PartOk(text, Tokens(text), k, parts[k])
    requires MapOk(img, lmap, low) && Added(text, parts, starts, added)
    requires Laid(img + before, Tokens(text), starts, |img| + |before|)
    requires (if starts == [] then |img| + |before| else starts[0]) == |img|
    requires i < |lmap| && parts[|starts|].0 < |text|
    requires SameText(lmap[i].name, Chopped(text, parts[|starts|].0))
    requires lmap[i].offset < 16384
    requires out == before + Pointer(lmap[i].offset)
    ensures Written(img, text, out, lmap + added, low)
  {
    hide Laid, Added, Decode, Chopped, Written, Parts, EntryOk;
    var ls, k, q := Tokens(text), |starts|, |img| + |before|;
    assert EntryOk(img, lmap[i], low);
    assert Agree(img + before, img + out) && Agree(img, img + out);
    LaidMono(img + before, img + out, ls, starts, q);
    assert (img + out)[q] == (lmap[i].offset + 0xc000) / 256 == 0xc0 + lmap[i].offset / 256;
    assert (img + out)[q + 1] == lmap[i].offset % 256;
    PointerTail(img, img + out, q, lmap[i], Chopped(text, parts[k].0), low);
    assert PartOk(text, ls, k, parts[k]);
    assert GoodLabels(ls[k..]);
    ChoppedTokens(text, parts[k].0);
    Finish(img, out, lmap, text, parts, starts, q, added, low);
  }

  /** The name ends in a zero byte. */
  lemma FinishZero(img: Image, out: seq<byte>, lmap: seq<Entry>, text: seq<byte>, parts: seq<(nat, nat)>,
                   starts: seq<nat>, added: seq<Entry>, low: bool)
    requires low ==> LowerLabels(Tokens(text))
    requires text != [DOT] && GoodLabels(Tokens(text)) && |parts| == |Tokens(text)| == |starts|
    requires forall k :: 0 <= k < |parts| ==> PartOk(text, Tokens(text), k, parts[k])
    requires MapOk(img, lmap, low) && Added(text, parts, starts, added)
    requires Laid(img + out, Tokens(text), starts, |img| + |out|)
    requires (if starts == [] then |img| + |out| else starts[0]) == |img|
    ensures Written(img, text, out + [0], lmap + added, low)
  {
    hide Laid, Added, Chopped, Written, Parts, EntryOk;
    var ls, q := Tokens(text), |img| + |out|;
    assert Agree(img + out, img + (out + [0]));
    LaidMono(img + out, img + (out + [0]), ls, starts, q);
    assert (img + (out + [0]))[q] == 0;
    assert ls[|starts|..] == [];
    Finish(img, out + [0], lmap, text, parts, starts, q, added, low);
  }

  /** What has been written when the first |starts| labels stand in the record. */
  ghost predicate Progress(img: Image, pos: nat, text: seq<byte>, parts: seq<(nat, nat)>, lmap: seq<Entry>,
                           out: seq<byte>, lmap': seq<Entry>, starts: seq<nat>, added: seq<Entry>, low: bool)
  {
    && MapOk(img, lmap, low) && lmap' == lmap + added
    && Split(text, parts) && |starts| <= |parts| && (low ==> LowerLabels(Tokens(text)))
    && Laid(img + out, Tokens(text), starts, |img| + |out|)
    && (if starts == [] then |img| + |out| else starts[0]) == |img|
    && Added(text, parts, starts, added)
    && (|added| < |starts| ==> pos + |out| >= 16384)
    && (if pos >= 16384 then added == [] else pos == |img|)
    && Encoded(Tokens(text), 0) == out + Encoded(Tokens(text), |starts|)
  }

  /** parts are the parts of a text that is a good name other than ".". */
  ghost predicate Split(text: seq<byte>, parts: seq<(nat, nat)>)
  {
    && text != [DOT] && GoodLabels(Tokens(text)) && |parts| == |Tokens(text)|
    && (forall k :: 0 <= k < |parts| ==> PartOk(text, Tokens(text), k, parts[k]))
    && forall j, k :: 0 <= j < k < |parts| ==> parts[j].0 < parts[k].0
  }

  lemma ProgressStart(img: Image, pos: nat, text: seq<byte>, parts: seq<(nat, nat)>, lmap: seq<Entry>, low: bool)
    requires MapOk(img, lmap, low) && Split(text, parts) && (pos == |img| || pos >= 16384)
    requires low ==> LowerLabels(Tokens(text))
    ensures Progress(img, pos, text, parts, lmap, [], lmap, [], [], low)
  {
    hide MapOk, Split, Tokens;
    assert img + [] == img && lmap + [] == lmap;
    assert GoodLabels(Tokens(text)) by { SplitFacts(text, parts); }
  }

  lemma SplitFacts(text: seq<byte>, parts: seq<(nat, nat)>)
    requires Split(text, parts)
    ensures text != [DOT] && GoodLabels(Tokens(text)) && |parts| == |Tokens(text)|
    ensures forall k :: 0 <= k < |parts| ==> parts[k].0 < |text| && parts[k].0 <= parts[k].1 <= |text|
    ensures forall k :: 0 <= k < |parts| ==> Tokens(text)[k] == text[parts[k].0..parts[k].1]
  {
  }

  lemma PartShort(text: seq<byte>, parts: seq<(nat, nat)>, k: nat)
    requires Split(text, parts) && k < |parts|
    ensures parts[k].0 <= parts[k].1 <= |text| && parts[k].0 < |text|
    ensures |text[parts[k].0..parts[k].1]| < 256
  {
    hide Tokens;
    assert PartOk(text, Tokens(text), k, parts[k]);
  }

  /** One turn of the loop that writes a label, remembering its suffix if the offset is small enough. */
  lemma ProgressStep(img: Image, pos: nat, text: seq<byte>, parts: seq<(nat, nat)>, lmap: seq<Entry>, out: seq<byte>,
                     lmap': seq<Entry>, starts: seq<nat>, added: seq<Entry>, k: nat, e: Entry, part: seq<byte>,
                     low: bool)
    requires |part| < 256 && k == |starts| < |parts|
    requires Progress(img, pos, text, parts, lmap, out, lmap', starts, added, low)
    requires parts[k].0 <= parts[k].1 <= |text| && parts[k].0 < |text|
    requires part == text[parts[k].0..parts[k].1] && e == Entry(Chopped(text, parts[k].0), pos + |out|)
    ensures
      var (more, remembered) := if pos + |out| < 16384 then (lmap' + [e], added + [e]) else (lmap', added);
      Progress(img, pos, text, parts, lmap, out + [|part|] + part, more, starts + [|img| + |out|], remembered, low)
  {
    hide MapOk, Laid, Added, Tokens, Encoded, Split, Chopped;
    SplitFacts(text, parts);
    assert GoodLabel(part);
    LayLabel(img, out, Tokens(text), starts, part);
    EncodedStep(Tokens(text), out, k, part);
    AddedLength(text, parts, starts, added);
    if pos + |out| < 16384 {
      AddEntry(text, parts, starts, added, pos + |out|);
      assert lmap + (added + [e]) == lmap + added + [e];
    } else {
      AddStart(text, parts, starts, added, |img| + |out|);
    }
  }

  lemma ProgressSplit(img: Image, pos: nat, text: seq<byte>, parts: seq<(nat, nat)>, lmap: seq<Entry>, out: seq<byte>,
                      lmap': seq<Entry>, starts: seq<nat>, added: seq<Entry>, low: bool)
    requires Progress(img, pos, text, parts, lmap, out, lmap', starts, added, low)
    ensures Split(text, parts)
  {
  }

  lemma AddedLength(text: seq<byte>, parts: seq<(nat, nat)>, starts: seq<nat>, added: seq<Entry>)
    requires Added(text, parts, starts, added)
    ensures |added| <= |starts|
  {
  }

  lemma EncodedLong(ls: seq<seq<byte>>, n: nat)
    requires GoodLabels(ls) && n < |ls|
    ensures |Encoded(ls, n)| >= 3
  {
    assert |Encoded(ls, n + 1)| >= 1;
  }

  /** The name ends in a pointer to a suffix found in the map. */
  lemma ProgressPointer(img: Image, pos: nat, text: seq<byte>, parts: seq<(nat, nat)>, lmap: seq<Entry>, out: seq<byte>,
                        lmap': seq<Entry>, starts: seq<nat>, added: seq<Entry>, i: nat, low: bool)
    requires Progress(img, pos, text, parts, lmap, out, lmap', starts, added, low) && |starts| < |parts|
    requires parts[|starts|].0 < |text| && i < |lmap'|
    requires SameText(lmap'[i].name, Chopped(text, parts[|starts|].0))
    ensures i < |lmap| && lmap'[i] == lmap[i] && lmap[i].offset < 16384
    ensures Written(img, text, out + Pointer(lmap'[i].offset), lmap', low)
    ensures GoodLabels(Tokens(text)) && |out| + 2 <= |Encoded(Tokens(text), 0)|
  {
    EncodedLong(Tokens(text), |starts|);
    hide MapOk, Laid, Added, Tokens, Encoded, Chopped, SameText, Written, PartOk;
    FoundOld(text, parts, starts, lmap, added, i, |starts|);
    OffsetFits(img, lmap, i, low);
    FinishPointer(img, out, out + Pointer(lmap[i].offset), lmap, text, parts, starts, added, i, low);
  }

  /** The name ends in a zero byte and is uncompressed. */
  lemma ProgressZero(img: Image, pos: nat, text: seq<byte>, parts: seq<(nat, nat)>, lmap: seq<Entry>, out: seq<byte>,
                     lmap': seq<Entry>, starts: seq<nat>, added: seq<Entry>, low: bool)
    requires Progress(img, pos, text, parts, lmap, out, lmap', starts, added, low) && |starts| == |parts|
    ensures Written(img, text, out + [0], lmap', low)
    ensures GoodLabels(Tokens(text)) && out + [0] == Encoded(Tokens(text), 0)
  {
    hide MapOk, Laid, Added, Tokens, Written, PartOk;
    FinishZero(img, out, lmap, text, parts, starts, added, low);
  }

  lemma RootWritten(img: Image, lmap: seq<Entry>, low: bool)
    requires MapOk(img, lmap, low)
    ensures Written(img, [DOT], [0], lmap, low) && Encoded(Labels([DOT]), 0) == [0]
  {
    MapMono(img, img + [0], lmap, low);
  }

  // ---------------------------------------------------------------- how much is written

  /** A suffix equal up to case has been written before. */
  predicate Known(lmap: seq<Entry>, name: seq<byte>)
  {
    exists i :: 0 <= i < |lmap| && SameText(lmap[i].name, name)
  }

  /** Offsets of 16384 and more are not remembered. */
  function Remember(lmap: seq<Entry>, name: seq<byte>, offset: nat): (r: seq<Entry>)
  {
    if offset < 16384 then lmap + [Entry(name, offset)] else lmap
  }

  /** How many bytes the labels ls of a text take from the k-th on, which begins at from in the text and will
      stand at pos, and the label map afterwards. */
  function Spell(lmap: seq<Entry>, pos: nat, text: seq<byte>, ls: seq<seq<byte>>, from: nat, k: nat, compress: bool):
    (r: (nat, seq<Entry>))
    requires k <= |ls|
    decreases |ls| - k
  {
    if k == |ls| || from >= |text| then (1, lmap)
    else if compress && Known(lmap, Chopped(text, from)) then (2, lmap)
    else
      var n := 1 + |ls[k]|;
      var rest := Spell(Remember(lmap, Chopped(text, from), pos), pos + n, text, ls, from + n, k + 1, compress);
      (n + rest.0, rest.1)
  }

  /** The size of a name written at pos, and the label map afterwards. */
  function Spelled(lmap: seq<Entry>, pos: nat, text: seq<byte>, compress: bool): (r: (nat, seq<Entry>))
  {
    if text == [DOT] then (1, lmap) else Spell(lmap, pos, text, Tokens(text), 0, 0, compress)
  }

  /** No more than the uncompressed labels. */
  lemma {:induction false} SpellShort(lmap: seq<Entry>, pos: nat, text: seq<byte>, ls: seq<seq<byte>>, from: nat,
                                      k: nat, compress: bool)
    requires k <= |ls| && GoodLabels(ls)
    ensures Spell(lmap, pos, text, ls, from, k, compress).0 <= |Encoded(ls, k)|
    decreases |ls| - k
  {
    hide Known, Remember, Chopped;
    if k < |ls| {
      EncodedLong(ls, k);
      if from < |text| {
        SpellShort(Remember(lmap, Chopped(text, from), pos), pos + 1 + |ls[k]|, text, ls, from + 1 + |ls[k]|, k + 1,
                   compress);
      }
    }
  }

  lemma SpelledShort(lmap: seq<Entry>, pos: nat, text: seq<byte>, compress: bool)
    requires GoodName(text)
    ensures GoodLabels(Labels(text)) && Spelled(lmap, pos, text, compress).0 <= |Encoded(Labels(text), 0)|
  {
    hide Spell, Encoded, Tokens;
    if text != [DOT] {
      SpellShort(lmap, pos, text, Tokens(text), 0, 0, compress);
    } else {
      EncodedStarts([], 0);
    }
  }

  /** k labels have been written, and the rest leads to r. */
  ghost predicate Spelling(text: seq<byte>, compress: bool, pos: nat, out: seq<byte>, lmap: seq<Entry>,
                           parts: seq<(nat, nat)>, k: nat, r: (nat, seq<Entry>))
  {
    var ls := Tokens(text);
    && k <= |parts| == |ls|
    && var rest := Spell(lmap, pos + |out|, text, ls, if k == 0 then 0 else parts[k - 1].1 + 1, k, compress);
       r == (|out| + rest.0, rest.1)
  }

  lemma SpellingStart(text: seq<byte>, compress: bool, pos: nat, lmap: seq<Entry>, parts: seq<(nat, nat)>)
    requires text != [DOT] && |parts| == |Tokens(text)|
    ensures Spelling(text, compress, pos, [], lmap, parts, 0, Spelled(lmap, pos, text, compress))
  {
    hide Spell;
  }

  /** One label further: it ends in a pointer, or the label is written and its suffix remembered. */
  lemma SpellingStep(text: seq<byte>, compress: bool, pos: nat, out: seq<byte>, lmap: seq<Entry>,
                     parts: seq<(nat, nat)>, k: nat, r: (nat, seq<Entry>))
    requires Spelling(text, compress, pos, out, lmap, parts, k, r) && k < |parts|
    requires Follows(parts, k) && PartOk(text, Tokens(text), k, parts[k])
    ensures var (from, end) := parts[k];
            var chopped := Chopped(text, from);
            if compress && Known(lmap, chopped) then r == (|out| + 2, lmap)
            else Spelling(text, compress, pos, out + [(end - from) % 256] + text[from..end],
                          Remember(lmap, chopped, pos + |out|), parts, k + 1, r)
  {
    hide Tokens, Known, Remember, Chopped;
  }

  lemma SpellingEnd(text: seq<byte>, compress: bool, pos: nat, out: seq<byte>, lmap: seq<Entry>, parts: seq<(nat, nat)>,
                    r: (nat, seq<Entry>))
    requires Spelling(text, compress, pos, out, lmap, parts, |parts|, r)
    ensures r == (|out| + 1, lmap)
  {
    hide Tokens;
  }

  // ---------------------------------------------------------------- what is abridged

  /** So many bytes the first k labels take, in the text with their dots and in a message with their lengths. */
  function Before(ls: seq<seq<byte>>, k: nat): (n: nat)
    requires k <= |ls|
  {
    if k == 0 then 0 else Before(ls, k - 1) + 1 + |ls[k - 1]|
  }

  /** The first k labels of a name written at pos are remembered in the map, each with those after it, as far as
      they stand below 16384. */
  ghost predicate Remembers(lmap: seq<Entry>, pos: nat, ls: seq<seq<byte>>, k: nat, lmap': seq<Entry>)
    requires k <= |ls|
  {
    && lmap <= lmap'
    && var n := |lmap'| - |lmap|;
       && n <= k && (n < k ==> pos + Before(ls, n) >= 16384)
       && forall m :: 0 <= m < n ==>
            pos + Before(ls, m) < 16384 && lmap'[|lmap| + m] == Entry(Dotted(ls[m..]), pos + Before(ls, m))
  }

  /** The i-th entry of the map is the first that has this text, up to case. */
  predicate FirstHit(lmap: seq<Entry>, i: nat, name: seq<byte>)
  {
    i < |lmap| && SameText(lmap[i].name, name) && forall h :: 0 <= h < i ==> !SameText(lmap[h].name, name)
  }

  /** What is written for a name: if it may be compressed, the labels before the first suffix that is in the
      map already, and a pointer to where that suffix stands; without such a suffix all labels and a zero. */
  ghost predicate Abridged(lmap: seq<Entry>, pos: nat, ls: seq<seq<byte>>, compress: bool, full: nat, out: seq<byte>,
                           lmap': seq<Entry>)
    requires GoodLabels(ls)
  {
    && full <= |ls|
    && (compress ==> forall j, i :: 0 <= j < full && 0 <= i < |lmap| ==> !SameText(lmap[i].name, Dotted(ls[j..])))
    && (full == |ls| ==> out == Encoded(ls, 0))
    && (full < |ls| ==>
          && compress && Before(ls, full) <= |Encoded(ls, 0)|
          && exists i: nat ::
               FirstHit(lmap, i, Dotted(ls[full..])) && lmap[i].offset < 16384
               && out == Encoded(ls, 0)[..Before(ls, full)] + [0xc0 + lmap[i].offset / 256, lmap[i].offset % 256])
    && Remembers(lmap, pos, ls, full, lmap')
  }

  /** The first k labels have been written in full. */
  ghost predicate Abridging(lmap: seq<Entry>, pos: nat, ls: seq<seq<byte>>, compress: bool, k: nat, out: seq<byte>,
                            lmap': seq<Entry>)
  {
    && GoodLabels(ls) && k <= |ls| && |out| == Before(ls, k) && Encoded(ls, 0) == out + Encoded(ls, k)
    && (compress ==> forall j, i :: 0 <= j < k && 0 <= i < |lmap| ==> !SameText(lmap[i].name, Dotted(ls[j..])))
    && Remembers(lmap, pos, ls, k, lmap')
  }

  lemma AbridgingStart(lmap: seq<Entry>, pos: nat, ls: seq<seq<byte>>, compress: bool)
    requires GoodLabels(ls)
    ensures Abridging(lmap, pos, ls, compress, 0, [], lmap)
  {
    hide Encoded;
    assert [] + Encoded(ls, 0) == Encoded(ls, 0);
  }

  /** The text looked up and remembered for the k-th label. */
  lemma ChoppedAt(text: seq<byte>, k: nat, p: (nat, nat))
    requires PartOk(text, Tokens(text), k, p)
    ensures k < |Tokens(text)| && Chopped(text, p.0) == Dotted(Tokens(text)[k..])
  {
    ChoppedDotted(text, p.0);
    hide Chopped, Parts, Dotted;
  }

  lemma AbridgingStep(lmap: seq<Entry>, pos: nat, ls: seq<seq<byte>>, compress: bool, k: nat, out: seq<byte>,
                      lmap': seq<Entry>)
    requires k < |ls| && Abridging(lmap, pos, ls, compress, k, out, lmap')
    requires compress ==> forall i :: 0 <= i < |lmap'| ==> !SameText(lmap'[i].name, Dotted(ls[k..]))
    ensures |ls[k]| < 256
    ensures
      var e := Entry(Dotted(ls[k..]), pos + |out|);
      Abridging(lmap, pos, ls, compress, k + 1, out + [|ls[k]|] + ls[k],
                if e.offset < 16384 then lmap' + [e] else lmap')
  {
    AbridgingParts(lmap, pos, ls, compress, k, out, lmap');
    assert GoodLabel(ls[k]);
    hide *;
    EncodedStep(ls, out, k, ls[k]);
    RemembersStep(lmap, pos, ls, k, lmap');
    RemembersGrows(lmap, pos, ls, k, lmap');
    var e := Entry(Dotted(ls[k..]), pos + |out|);
    AbridgingFold(lmap, pos, ls, compress, k, out, if e.offset < 16384 then lmap' + [e] else lmap');
  }

  lemma AbridgingParts(lmap: seq<Entry>, pos: nat, ls: seq<seq<byte>>, compress: bool, k: nat, out: seq<byte>,
                       lmap': seq<Entry>)
    requires Abridging(lmap, pos, ls, compress, k, out, lmap')
    ensures GoodLabels(ls) && k <= |ls| && |out| == Before(ls, k) && Encoded(ls, 0) == out + Encoded(ls, k)
    ensures compress ==> forall j, i :: 0 <= j < k && 0 <= i < |lmap| ==> !SameText(lmap[i].name, Dotted(ls[j..]))
    ensures Remembers(lmap, pos, ls, k, lmap')
  {
    hide Encoded, Dotted, Remembers, SameText, Before;
  }

  lemma AbridgingFold(lmap: seq<Entry>, pos: nat, ls: seq<seq<byte>>, compress: bool, k: nat, out: seq<byte>,
                      more: seq<Entry>)
    requires GoodLabels(ls) && k < |ls| && |out| == Before(ls, k) && |ls[k]| < 256
    requires Encoded(ls, 0) == out + [|ls[k]|] + ls[k] + Encoded(ls, k + 1)
    requires compress ==> forall j, i :: 0 <= j < k + 1 && 0 <= i < |lmap| ==> !SameText(lmap[i].name, Dotted(ls[j..]))
    requires Remembers(lmap, pos, ls, k + 1, more)
    ensures Abridging(lmap, pos, ls, compress, k + 1, out + [|ls[k]|] + ls[k], more)
  {
    hide Encoded, Dotted, Remembers, SameText;
  }

  lemma RemembersGrows(lmap: seq<Entry>, pos: nat, ls: seq<seq<byte>>, k: nat, lmap': seq<Entry>)
    requires k <= |ls| && Remembers(lmap, pos, ls, k, lmap')
    ensures lmap <= lmap'
  {
  }

  lemma RemembersStep(lmap: seq<Entry>, pos: nat, ls: seq<seq<byte>>, k: nat, lmap': seq<Entry>)
    requires k < |ls| && Remembers(lmap, pos, ls, k, lmap')
    ensures
      var e := Entry(Dotted(ls[k..]), pos + Before(ls, k));
      Remembers(lmap, pos, ls, k + 1, if e.offset < 16384 then lmap' + [e] else lmap')
  {
    hide Dotted;
    BeforeGrows(ls, |lmap'| - |lmap|, k);
  }

  lemma {:induction false} BeforeGrows(ls: seq<seq<byte>>, j: nat, k: nat)
    requires j <= k <= |ls|
    ensures Before(ls, j) <= Before(ls, k)
  {
    if j < k {
      BeforeGrows(ls, j, k - 1);
    }
  }

  /** The name ends in a pointer to the first entry found; it was in the map before the name. */
  lemma AbridgingPointer(lmap: seq<Entry>, pos: nat, ls: seq<seq<byte>>, k: nat, out: seq<byte>, lmap': seq<Entry>,
                         i: nat)
    requires k < |ls| && Abridging(lmap, pos, ls, true, k, out, lmap')
    requires FirstHit(lmap', i, Dotted(ls[k..])) && i < |lmap| && lmap[i].offset < 16384
    ensures Abridged(lmap, pos, ls, true, k, out + Pointer(lmap[i].offset), lmap')
  {
    hide Dotted, Remembers, SameText, Encoded;
    RemembersGrows(lmap, pos, ls, k, lmap');
    assert Encoded(ls, 0)[..Before(ls, k)] == out;
    assert FirstHit(lmap, i, Dotted(ls[k..]));
    var o := lmap[i].offset;
    assert Pointer(o) == [0xc0 + o / 256, o % 256];
  }

  lemma AbridgingEnd(lmap: seq<Entry>, pos: nat, ls: seq<seq<byte>>, compress: bool, out: seq<byte>, lmap': seq<Entry>)
    requires Abridging(lmap, pos, ls, compress, |ls|, out, lmap')
    ensures Abridged(lmap, pos, ls, compress, |ls|, out + [0], lmap')
  {
    EncodedStarts(ls, |ls|);
    hide Dotted, Remembers, SameText, Encoded;
  }

  /** The loop of xfrLabel. pos is where the name will stand in the message; out is appended to the
      record being written. Offsets of 16384 and more are never remembered. */
  method WriteName(ghost img: Image, pos: nat, lmap: seq<Entry>, text: seq<byte>, compress: bool, ghost low: bool)
    returns (out: seq<byte>, lmap': seq<Entry>, ghost full: nat)
    requires GoodName(text) && MapOk(img, lmap, low) && (low ==> LowerLabels(Labels(text)))
    requires pos == |img| || pos >= 16384
    ensures Written(img, text, out, lmap', low)
    ensures GoodLabels(Labels(text)) && (!compress ==> out == Encoded(Labels(text), 0))
    ensures |out| <= |Encoded(Labels(text), 0)|
    ensures pos >= 16384 ==> lmap' == lmap
    ensures (|out|, lmap') == Spelled(lmap, pos, text, compress)
    ensures Abridged(lmap, pos, Labels(text), compress, full, out, lmap')
  {
    hide Progress, Written, MapOk, Chopped, Dotted, Tokens, SameText, Encoded, Spelling, Spell, Follows, Abridging,
         Abridged, PartOk;
    if text == [DOT] {
      RootWritten(img, lmap, low);
      RootAbridged(lmap, pos, compress);
      return [0], lmap, 0;
    }
    var parts := LabelTok(text);
    out, lmap' := [], lmap;
    ghost var starts: seq<nat>, added: seq<Entry> := [], [];
    ProgressStart(img, pos, text, parts, lmap, low);
    ghost var r := Spelled(lmap, pos, text, compress);
    SpellingStart(text, compress, pos, lmap, parts);
    AbridgingStart(lmap, pos, Tokens(text), compress);
    var k := 0;
    while k < |parts|
      invariant 0 <= k <= |parts| && |starts| == k
      invariant Progress(img, pos, text, parts, lmap, out, lmap', starts, added, low)
      invariant pos >= 16384 ==> lmap' == lmap
      invariant Spelling(text, compress, pos, out, lmap', parts, k, r)
      invariant Abridging(lmap, pos, Tokens(text), compress, k, out, lmap')
    {
      SpellingStep(text, compress, pos, out, lmap', parts, k, r);
      assert PartOk(text, Tokens(text), k, parts[k]);
      PartPlace(text, parts, k);
      ChoppedAt(text, k, parts[k]);
      var chopped := Chopped(text, parts[k].0);
      if compress {
        var i := Find(lmap', chopped);
        if i < |lmap'| {
          ProgressPointer(img, pos, text, parts, lmap, out, lmap', starts, added, i, low);
          AbridgingPointer(lmap, pos, Tokens(text), k, out, lmap', i);
          return out + Pointer(lmap'[i].offset), lmap', k;
        }
      }
      var e := Entry(chopped, pos + |out|);
      var part := text[parts[k].0..parts[k].1];
      AbridgingStep(lmap, pos, Tokens(text), compress, k, out, lmap');
      ProgressSplit(img, pos, text, parts, lmap, out, lmap', starts, added, low);
      PartShort(text, parts, k);
      ProgressStep(img, pos, text, parts, lmap, out, lmap', starts, added, k, e, part, low);
      starts := starts + [|img| + |out|];
      if e.offset < 16384 {
        lmap' := lmap' + [e];
        added := added + [e];
      }
      out := out + [|part|] + part;
      k := k + 1;
    }
    ProgressZero(img, pos, text, parts, lmap, out, lmap', starts, added, low);
    SpellingEnd(text, compress, pos, out, lmap', parts, r);
    AbridgingEnd(lmap, pos, Tokens(text), compress, out, lmap');
    out, full := out + [0], k;
  }

  lemma PartPlace(text: seq<byte>, parts: seq<(nat, nat)>, k: nat)
    requires k < |parts| && PartOk(text, Tokens(text), k, parts[k])
    ensures parts[k].0 <= parts[k].1 <= |text| && parts[k].0 < |text|
    ensures k < |Tokens(text)| && text[parts[k].0..parts[k].1] == Tokens(text)[k]
  {
  }

  lemma RootAbridged(lmap: seq<Entry>, pos: nat, compress: bool)
    ensures Abridged(lmap, pos, Labels([DOT]), compress, 0, [0], lmap)
  {
  }
}
