/** PacketReader: names, integers and record data read from a packet without its header. */
module MessageReader {
  import opened Bytes
  import opened Names
  import opened Wire

  /** What a read throws: std::out_of_range, MOADNSException("Loop"), or the length error of
      assigning an inverted range. */
  datatype Failure = Beyond | TooManyHops | Inverted

  datatype Result<+T> = Ok(value: T) | Err(failure: Failure)

  /** The message image of a packet's content: the header is out of reach. */
  function Img(content: seq<byte>): (img: Image)
    ensures |img| == 12 + |content|
    ensures forall i :: 12 <= i < |img| ==> img[i] == content[i - 12]
    ensures forall i :: 0 <= i < 12 ==> img[i] == -1
  {
    Holes(12) + content
  }

  const HOPS: nat := 10

  /** The text a name reads as, when ret has been collected before it. */
  function TextOf(ret: seq<byte>, r: NameResult): (t: Result<seq<byte>>)
  {
    match r
    case Name(ls) => var t := ret + Join(ls, 0); Ok(if t == [] then [DOT] else t)
    case OutOfRange => Err(Beyond)
    case Loop => Err(TooManyHops)
  }

  lemma TextIsPresent(ls: seq<seq<byte>>)
    ensures TextOf([], Name(ls)) == Ok(Present(ls))
  {
    assert [] + Join(ls, 0) == Join(ls, 0);
  }

  lemma TextStep(ret: seq<byte>, img: Image, pos: nat, hops: nat, l: seq<byte>)
    requires pos < |img| && 1 <= img[pos] < 0xc0 && Solid(img, pos + 1, pos + 1 + img[pos])
    requires l == img[pos + 1..pos + 1 + img[pos]]
    ensures TextOf(ret + Escape(l, 0) + [DOT], Decode(img, pos + 1 + img[pos], hops))
         == TextOf(ret, Decode(img, pos, hops))
    ensures NameEnd(img, pos) == NameEnd(img, pos + 1 + img[pos])
  {
    var rest := Decode(img, pos + 1 + img[pos], hops);
    if rest.Name? {
      var ls := [l] + rest.labels;
      JoinShift(ls, 1, 0);
      assert ls[1..] == rest.labels;
      assert Join(ls, 0) == Escape(l, 0) + [DOT] + Join(rest.labels, 0);
      assert ret + (Escape(l, 0) + [DOT] + Join(rest.labels, 0)) == ret + Escape(l, 0) + [DOT] + Join(rest.labels, 0);
    }
  }

  lemma EscapeStep(ret: seq<byte>, l: seq<byte>, n: nat, r: seq<byte>)
    requires n < |l|
    requires ret + Escape(l, n) == r
    ensures ret + EscapeByte(l[n]) + Escape(l, n + 1) == r
  {
    assert ret + (EscapeByte(l[n]) + Escape(l, n + 1)) == ret + EscapeByte(l[n]) + Escape(l, n + 1);
  }

  /** Copies one label's bytes, escaping dots, backslashes and spaces. */
  method AppendLabel(content: seq<byte>, frompos: nat, labellen: nat, ret0: seq<byte>)
    returns (ret: seq<byte>)
    requires frompos + labellen <= |content|
    ensures ret == ret0 + Escape(content[frompos..frompos + labellen], 0) + [DOT]
  {
    ret := ret0;
    var n := 0;
    ghost var l := content[frompos..frompos + labellen];
    while n < labellen
      invariant 0 <= n <= labellen
      invariant ret + Escape(l, n) == ret0 + Escape(l, 0)
    {
      var c := content[frompos + n];
      EscapeStep(ret, l, n, ret0 + Escape(l, 0));
      if c == DOT || c == BACKSLASH {
        ret := ret + [BACKSLASH, c];
      } else if c == SPACE {
        ret := ret + [BACKSLASH, 48, 51, 50];
      } else {
        ret := ret + [c];
      }
      n := n + 1;
    }
    assert ret + [] == ret;
    ret := ret + [DOT];
  }

  /** The wrapped 16-bit offset reads what the pointer's target in the message reads. */
  lemma PointerIsTarget(content: seq<byte>, at: nat, hops: nat)
    requires |content| <= 65523 && at + 1 < |content| && content[at] >= 0xc0
    ensures Decode(Img(content), 12 + at, hops)
         == if hops == 0 then Loop else Decode(Img(content), 12 + Offset(content[at], content[at + 1]), hops - 1)
    ensures NameEnd(Img(content), 12 + at) == 12 + at + 2
  {
    var img := Img(content);
    assert img[12 + at] == content[at] && img[12 + at + 1] == content[at + 1];
    var target: int, offset: int := Target(img, 12 + at), Offset(content[at], content[at + 1]);
    if target < 12 {
      assert offset == target - 12 + 0x10000;
      assert 12 + offset >= |img|;
    } else {
      assert offset == target - 12;
    }
  }

  /** The offset of a pointer within the content, in 16 bits. */
  function Offset(hi: byte, lo: byte): (r: nat)
    requires hi >= 0xc0
  {
    var h: int := hi;
    (256 * (h - 0xc0) + lo - 12) % 0x10000
  }

  /** What reading a name at a place of the content gives, after ret has been collected. */
  function NameText(content: seq<byte>, at: nat, ret: seq<byte>, hops: nat): (r: Result<seq<byte>>)
  {
    TextOf(ret, Decode(Img(content), 12 + at, hops))
  }

  function After(content: seq<byte>, at: nat): (e: int)
  {
    NameEnd(Img(content), 12 + at) - 12
  }

  lemma ReadBeyond(content: seq<byte>, at: nat, ret: seq<byte>, hops: nat)
    requires at >= |content| || (content[at] >= 0xc0 && at + 1 >= |content|)
          || (1 <= content[at] < 0xc0 && at + 1 + content[at] > |content|)
    ensures NameText(content, at, ret, hops) == Err(Beyond)
  {
    assert at < |content| ==> Img(content)[12 + at] == content[at];
  }

  lemma ReadZero(content: seq<byte>, at: nat, ret: seq<byte>, hops: nat)
    requires at < |content| && content[at] == 0
    ensures NameText(content, at, ret, hops) == Ok(if ret == [] then [DOT] else ret)
    ensures After(content, at) == at + 1
  {
    assert Img(content)[12 + at] == content[at];
    assert ret + Join([], 0) == ret;
  }

  lemma ReadPointer(content: seq<byte>, at: nat, ret: seq<byte>, hops: nat)
    requires |content| <= 65523 && at + 1 < |content| && content[at] >= 0xc0
    ensures NameText(content, at, ret, hops)
         == if hops == 0 then Err(TooManyHops)
            else NameText(content, Offset(content[at], content[at + 1]), ret, hops - 1)
    ensures After(content, at) == at + 2
  {
    PointerIsTarget(content, at, hops);
  }

  lemma ImgSlice(content: seq<byte>, i: nat, j: nat)
    requires i <= j <= |content|
    ensures Img(content)[12 + i..12 + j] == content[i..j] && Solid(Img(content), 12 + i, 12 + j)
  {
  }

  lemma ReadLabel(content: seq<byte>, at: nat, ret: seq<byte>, hops: nat, next: nat)
    requires at < |content| && 1 <= content[at] < 0xc0 && next == at + 1 + content[at] <= |content|
    ensures NameText(content, next, ret + Escape(content[at + 1..next], 0) + [DOT], hops)
         == NameText(content, at, ret, hops)
    ensures After(content, at) == After(content, next)
  {
    hide TextOf, Escape, Decode, NameEnd;
    var img := Img(content);
    assert img[12 + at] == content[at];
    ImgSlice(content, at + 1, next);
    hide Img;
    TextStep(ret, img, 12 + at, hops, content[at + 1..next]);
  }

  /** getLabelFromContent: reads labels onto ret0 until a zero byte, or continues at a pointer's
      target; offsets are 16 bits wide, so a pointer into the header leaves the content. */
  method GetLabelFromContent(content: seq<byte>, frompos0: nat, ret0: seq<byte>, recurs: nat)
    returns (r: Result<seq<byte>>, frompos: nat)
    requires |content| <= 65523 && recurs <= HOPS + 1
    ensures r == if recurs > HOPS then Err(TooManyHops) else NameText(content, frompos0, ret0, HOPS - recurs)
    ensures r.Ok? ==> frompos == After(content, frompos0)
    decreases HOPS + 1 - recurs
  {
    hide NameText, After, Escape, Offset;
    frompos := frompos0;
    if recurs > HOPS {
      return Err(TooManyHops), frompos;
    }
    ghost var hops := HOPS - recurs;
    var ret := ret0;
    while true
      invariant NameText(content, frompos, ret, hops) == NameText(content, frompos0, ret0, hops)
      invariant After(content, frompos) == After(content, frompos0)
      decreases if frompos < |content| then |content| - frompos else 0
    {
      if frompos >= |content| {
        ReadBeyond(content, frompos, ret, hops);
        return Err(Beyond), frompos;
      }
      var labellen := content[frompos];
      if labellen == 0 {
        ReadZero(content, frompos, ret, hops);
        return Ok(if ret == [] then [DOT] else ret), frompos + 1;
      }
      if labellen >= 0xc0 {
        if frompos + 1 >= |content| {
          ReadBeyond(content, frompos, ret, hops);
          return Err(Beyond), frompos;
        }
        ReadPointer(content, frompos, ret, hops);
        var offset := Offset(labellen, content[frompos + 1]);
        var end;
        r, end := GetLabelFromContent(content, offset, ret, recurs + 1);
        return r, frompos + 2;
      }
      var next := frompos + 1 + labellen;
      if next > |content| {
        ReadBeyond(content, frompos, ret, hops);
        return Err(Beyond), frompos;
      }
      ReadLabel(content, frompos, ret, hops, next);
      ret := AppendLabel(content, frompos + 1, labellen, ret);
      frompos := next;
    }
  }
}
