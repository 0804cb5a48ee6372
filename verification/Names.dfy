/** Domain names as text and as label lists (labeltokUnescape, pdns_iequals). */
module Names {
  import opened Bytes

  const BACKSLASH: byte := 92
  const SPACE: byte := 32

  /** The parts of s from pos on, when the current part started at from; a trailing
      dot starts no further part. */
  function Parts(s: seq<byte>, from: nat, pos: nat): (r: seq<seq<byte>>)
    requires from <= pos <= |s|
    decreases |s| - pos
  {
    if pos == |s| then (if from < pos then [s[from..pos]] else [])
    else if s[pos] == DOT then [s[from..pos]] + Parts(s, pos + 1, pos + 1)
    else Parts(s, from, pos + 1)
  }

  function Tokens(s: seq<byte>): (r: seq<seq<byte>>)
  {
    Parts(s, 0, 0)
  }

  predicate GoodLabel(l: seq<byte>)
  {
    1 <= |l| <= 63
  }

  predicate GoodLabels(ls: seq<seq<byte>>)
  {
    forall i :: 0 <= i < |ls| ==> GoodLabel(ls[i])
  }

  /** Text the writer accepts here: no escapes, no NUL, every part 1..63 bytes. */
  predicate GoodName(s: seq<byte>)
  {
    && BACKSLASH !in s && 0 !in s
    && (s == [DOT] || GoodLabels(Tokens(s)))
  }

  /** The labels a name stands for; "." and "" are the root. */
  function Labels(s: seq<byte>): (r: seq<seq<byte>>)
  {
    if s == [DOT] then [] else Tokens(s)
  }

  lemma {:induction false} PartsLower(s: seq<byte>, from: nat, pos: nat)
    requires from <= pos <= |s|
    ensures Parts(Lower(s), from, pos) == LowerAll(Parts(s, from, pos))
    decreases |s| - pos
  {
    LowerSlice(s, from, pos);
    if pos == |s| {
    } else if s[pos] == DOT {
      PartsLower(s, pos + 1, pos + 1);
      LowerAllCons(s[from..pos], Parts(s, pos + 1, pos + 1));
    } else {
      PartsLower(s, from, pos + 1);
    }
  }

  predicate LowerLabels(ls: seq<seq<byte>>)
  {
    forall i :: 0 <= i < |ls| ==> Lower(ls[i]) == ls[i]
  }

  predicate LowerName(s: seq<byte>)
  {
    Lower(s) == s
  }

  lemma LowerNameLabels(s: seq<byte>)
    requires LowerName(s)
    ensures LowerLabels(Labels(s))
  {
    hide Parts;
    PartsLower(s, 0, 0);
    assert LowerAll(Tokens(s)) == Tokens(s);
  }

  lemma SameTextSameTokens(a: seq<byte>, b: seq<byte>)
    requires SameText(a, b)
    ensures SameLabels(Tokens(a), Tokens(b))
  {
    PartsLower(a, 0, 0);
    PartsLower(b, 0, 0);
  }

  lemma RootText(a: seq<byte>, b: seq<byte>)
    requires SameText(a, b) && a == [DOT]
    ensures b == [DOT]
  {
    assert |b| == |Lower(b)| == |Lower(a)| == 1;
    assert LowerByte(b[0]) == Lower(b)[0] == Lower(a)[0] == DOT;
  }

  lemma SameTextSameNames(a: seq<byte>, b: seq<byte>)
    requires SameText(a, b)
    ensures SameLabels(Labels(a), Labels(b))
  {
    SameTextSameTokens(a, b);
    if a == [DOT] {
      RootText(a, b);
    } else if b == [DOT] {
      RootText(b, a);
    }
  }

  lemma {:induction false} PartsSome(s: seq<byte>, from: nat, pos: nat)
    requires from <= pos <= |s| && from < |s|
    ensures Parts(s, from, pos) != []
    decreases |s| - pos
  {
    if pos < |s| && s[pos] != DOT {
      PartsSome(s, from, pos + 1);
    }
  }

  /** Parts of a suffix are parts of the whole. */
  lemma {:induction false} PartsShift(s: seq<byte>, k: nat, from: nat, pos: nat)
    requires k <= |s| && from <= pos <= |s| - k
    ensures Parts(s[k..], from, pos) == Parts(s, k + from, k + pos)
    decreases |s| - k - pos
  {
    var t := s[k..];
    assert t[from..pos] == s[k + from..k + pos];
    if pos == |t| {
    } else if t[pos] == DOT {
      PartsShift(s, k, pos + 1, pos + 1);
    } else {
      PartsShift(s, k, from, pos + 1);
    }
  }

  /** Cutting off one trailing dot does not change the parts. */
  lemma {:induction false} PartsDedot(s: seq<byte>, from: nat, pos: nat)
    requires from <= pos < |s| && s[|s| - 1] == DOT
    requires GoodLabels(Parts(s, from, pos))
    ensures Parts(s[..|s| - 1], from, pos) == Parts(s, from, pos)
    decreases |s| - pos
  {
    var t := s[..|s| - 1];
    if pos == |t| {
      assert GoodLabel(Parts(s, from, pos)[0]);
      assert t[from..pos] == s[from..pos];
    } else if s[pos] == DOT {
      var rest := Parts(s, pos + 1, pos + 1);
      assert forall i :: 0 <= i < |rest| ==> rest[i] == Parts(s, from, pos)[i + 1];
      PartsDedot(s, pos + 1, pos + 1);
      assert t[from..pos] == s[from..pos];
    } else {
      PartsDedot(s, from, pos + 1);
    }
  }

  /** p delimits the k-th part, and from its begin on the text stands for the parts from k on. */
  predicate PartOk(text: seq<byte>, all: seq<seq<byte>>, k: nat, p: (nat, nat))
  {
    && k < |all| && p.0 <= p.1 <= |text| && p.0 < |text|
    && text[p.0..p.1] == all[k]
    && Parts(text, p.0, p.0) == all[k..]
  }

  /** The k-th part begins where the one before it ends, after the dot. */
  predicate Follows(parts: seq<(nat, nat)>, k: nat)
    requires k < |parts|
  {
    parts[k].0 == if k == 0 then 0 else parts[k - 1].1 + 1
  }

  /** The parts of a text found so far. */
  ghost predicate Found(text: seq<byte>, parts: seq<(nat, nat)>)
  {
    |parts| <= |Tokens(text)| && forall k :: 0 <= k < |parts| ==> PartOk(text, Tokens(text), k, parts[k])
  }

  /** They follow each other, and the next begins at lpos. */
  ghost predicate InRow(parts: seq<(nat, nat)>, lpos: nat)
  {
    && (forall k :: 0 <= k < |parts| ==> Follows(parts, k))
    && (forall k :: 0 <= k < |parts| ==> parts[k].0 < lpos)
    && (forall j, k :: 0 <= j < k < |parts| ==> parts[j].0 < parts[k].0)
    && lpos == if parts == [] then 0 else parts[|parts| - 1].1 + 1
  }

  lemma InRowMore(parts: seq<(nat, nat)>, lpos: nat, pos: nat)
    requires InRow(parts, lpos) && lpos <= pos
    ensures InRow(parts + [(lpos, pos)], pos + 1)
  {
    var more := parts + [(lpos, pos)];
    forall k | 0 <= k < |more|
      ensures Follows(more, k)
    {
      FollowsMore(parts, lpos, pos, k);
    }
    hide Follows;
  }

  lemma FollowsMore(parts: seq<(nat, nat)>, lpos: nat, pos: nat, k: nat)
    requires InRow(parts, lpos) && k <= |parts|
    ensures Follows(parts + [(lpos, pos)], k)
  {
    assert k < |parts| ==> Follows(parts, k);
  }

  lemma FoundMore(text: seq<byte>, parts: seq<(nat, nat)>, lpos: nat, pos: nat, rest: seq<seq<byte>>)
    requires Found(text, parts) && lpos <= pos <= |text| && lpos < |text|
    requires Tokens(text)[|parts|..] == [text[lpos..pos]] + rest == Parts(text, lpos, lpos)
    ensures Found(text, parts + [(lpos, pos)]) && Tokens(text)[|parts| + 1..] == rest
  {
    hide Parts, Tokens;
    Advance(Tokens(text), |parts|, text[lpos..pos], rest);
    assert PartOk(text, Tokens(text), |parts|, (lpos, pos));
    hide PartOk;
  }

  /** labeltokUnescape on text without escapes: begin and end offsets of every part. */
  method LabelTok(text: seq<byte>) returns (parts: seq<(nat, nat)>)
    requires BACKSLASH !in text
    ensures |parts| == |Tokens(text)|
    ensures forall k :: 0 <= k < |parts| ==> PartOk(text, Tokens(text), k, parts[k])
    ensures forall j, k :: 0 <= j < k < |parts| ==> parts[j].0 < parts[k].0
    ensures forall k :: 0 <= k < |parts| ==> Follows(parts, k)
  {
    parts := [];
    var lpos := 0;
    var pos := 0;
    while pos < |text|
      invariant 0 <= lpos <= pos <= |text|
      invariant Found(text, parts) && InRow(parts, lpos)
      invariant Tokens(text)[|parts|..] == Parts(text, lpos, pos) == Parts(text, lpos, lpos)
    {
      hide Found, InRow, Tokens;
      if text[pos] == DOT {
        InRowMore(parts, lpos, pos);
        FoundMore(text, parts, lpos, pos, Parts(text, pos + 1, pos + 1));
        parts := parts + [(lpos, pos)];
        lpos := pos + 1;
      }
      pos := pos + 1;
    }
    if lpos < pos {
      InRowMore(parts, lpos, pos);
      FoundMore(text, parts, lpos, pos, []);
      parts := parts + [(lpos, pos)];
    }
  }

  lemma Advance<T>(all: seq<T>, n: nat, x: T, rest: seq<T>)
    requires n <= |all| && all[n..] == [x] + rest
    ensures n < |all| && all[n] == x && all[n + 1..] == rest
  {
    assert all[n..][0] == x;
    assert all[n..][1..] == rest;
    assert all[n..][1..] == all[n + 1..];
  }

  // ---------------------------------------------------------------- labels as text

  /** The labels with a dot between each two. */
  function Dotted(ls: seq<seq<byte>>): (r: seq<byte>)
  {
    if ls == [] then [] else if |ls| == 1 then ls[0] else ls[0] + [DOT] + Dotted(ls[1..])
  }

  lemma DottedCons(l: seq<byte>, ls: seq<seq<byte>>)
    ensures Dotted([l] + ls) == if ls == [] then l else l + [DOT] + Dotted(ls)
  {
    assert ([l] + ls)[1..] == ls;
  }

  /** A text is the labels of its parts with dots between them, but for a dot at its end. */
  lemma {:induction false} DottedParts(s: seq<byte>, from: nat, pos: nat)
    requires from <= pos <= |s| && from < |s| && DOT !in s[from..pos]
    ensures Dotted(Parts(s, from, pos)) == if s[|s| - 1] == DOT then s[from..|s| - 1] else s[from..]
    decreases |s| - pos
  {
    if pos == |s| {
      assert s[from..pos][|s| - 1 - from] == s[|s| - 1];
      assert s[from..] == s[from..pos];
    } else if s[pos] == DOT {
      var rest := Parts(s, pos + 1, pos + 1);
      DottedCons(s[from..pos], rest);
      if pos + 1 < |s| {
        PartsSome(s, pos + 1, pos + 1);
        DottedParts(s, pos + 1, pos + 1);
        DotBetween(s, from, pos);
      }
    } else {
      assert s[from..pos + 1] == s[from..pos] + [s[pos]];
      DottedParts(s, from, pos + 1);
    }
  }

  lemma DotBetween(s: seq<byte>, from: nat, pos: nat)
    requires from <= pos < |s| - 1 && s[pos] == DOT
    ensures s[from..pos] + [DOT] + s[pos + 1..] == s[from..]
    ensures s[from..pos] + [DOT] + s[pos + 1..|s| - 1] == s[from..|s| - 1]
  {
  }

  /** Labels equal up to case are texts equal up to case. */
  lemma {:induction false} DottedSame(a: seq<seq<byte>>, b: seq<seq<byte>>)
    requires SameLabels(a, b)
    ensures SameText(Dotted(a), Dotted(b))
    decreases |a|
  {
    assert |a| == |LowerAll(a)| == |LowerAll(b)| == |b|;
    if a != [] {
      assert Lower(a[0]) == LowerAll(a)[0] == LowerAll(b)[0] == Lower(b[0]);
    }
    if |a| > 1 {
      assert LowerAll(a[1..]) == LowerAll(a)[1..];
      assert LowerAll(b[1..]) == LowerAll(b)[1..];
      DottedSame(a[1..], b[1..]);
      LowerConcat(a[0], [DOT]);
      LowerConcat(b[0], [DOT]);
      LowerConcat(a[0] + [DOT], Dotted(a[1..]));
      LowerConcat(b[0] + [DOT], Dotted(b[1..]));
    }
  }

  // ---------------------------------------------------------------- reader text

  /** getLabelFromContent's rendering of one byte of a label. */
  function EscapeByte(b: byte): (r: seq<byte>)
  {
    if b == DOT || b == BACKSLASH then [BACKSLASH, b]
    else if b == SPACE then [BACKSLASH, 48, 51, 50]
    else [b]
  }

  /** The rendering of l from its n-th byte on. */
  function Escape(l: seq<byte>, n: nat): (r: seq<byte>)
    requires n <= |l|
    decreases |l| - n
  {
    if n == |l| then [] else EscapeByte(l[n]) + Escape(l, n + 1)
  }

  /** The rendering of the labels from the n-th on, each closed by a dot. */
  function Join(ls: seq<seq<byte>>, n: nat): (r: seq<byte>)
    requires n <= |ls|
    decreases |ls| - n
  {
    if n == |ls| then [] else Escape(ls[n], 0) + [DOT] + Join(ls, n + 1)
  }

  /** The text the reader returns for a label list. */
  function Present(ls: seq<seq<byte>>): (r: seq<byte>)
  {
    if ls == [] then [DOT] else Join(ls, 0)
  }

  lemma {:induction false} EscapeLower(l: seq<byte>, n: nat)
    requires n <= |l|
    ensures Lower(Escape(l, n)) == Escape(Lower(l), n)
    decreases |l| - n
  {
    if n == |l| {
    } else {
      EscapeLower(l, n + 1);
      LowerConcat(EscapeByte(l[n]), Escape(l, n + 1));
      assert Lower(EscapeByte(l[n])) == EscapeByte(LowerByte(l[n]));
    }
  }

  lemma {:induction false} JoinLower(ls: seq<seq<byte>>, n: nat)
    requires n <= |ls|
    ensures Lower(Join(ls, n)) == Join(LowerAll(ls), n)
    decreases |ls| - n
  {
    if n == |ls| {
    } else {
      JoinLower(ls, n + 1);
      EscapeLower(ls[n], 0);
      LowerConcat(Escape(ls[n], 0), [DOT]);
      LowerConcat(Escape(ls[n], 0) + [DOT], Join(ls, n + 1));
      assert Lower([DOT]) == [DOT];
    }
  }

  // ---------------------------------------------------------------- reading the rendering back

  function DigitOf(b: byte): (v: nat)
  {
    if 48 <= b <= 57 then b - 48 else 0
  }

  /** Text as section 5.1 of RFC 1035 reads it: a backslash before three digits stands for the byte with that
      number, before another character for that character; a dot ends a label. cur is the label so far. */
  function ReadMaster(t: seq<byte>, cur: seq<byte>): (ls: seq<seq<byte>>)
    decreases |t|
  {
    if t == [] then (if cur == [] then [] else [cur])
    else if t[0] == DOT then [cur] + ReadMaster(t[1..], [])
    else if t[0] == BACKSLASH && |t| >= 4 && 48 <= t[1] <= 57 then
      var v := 100 * DigitOf(t[1]) + 10 * DigitOf(t[2]) + DigitOf(t[3]);
      ReadMaster(t[4..], cur + [v % 256])
    else if t[0] == BACKSLASH && |t| >= 2 then ReadMaster(t[2..], cur + [t[1]])
    else ReadMaster(t[1..], cur + [t[0]])
  }

  lemma ReadByte(b: byte, rest: seq<byte>, cur: seq<byte>)
    ensures ReadMaster(EscapeByte(b) + rest, cur) == ReadMaster(rest, cur + [b])
  {
    var t := EscapeByte(b) + rest;
    if b == DOT || b == BACKSLASH {
      assert t[0] == BACKSLASH && t[1] == b && t[2..] == rest;
    } else if b == SPACE {
      assert t[0] == BACKSLASH && t[1] == 48 && t[2] == 51 && t[3] == 50 && t[4..] == rest;
    } else {
      assert t[0] == b && t[1..] == rest;
    }
  }

  lemma {:induction false} ReadEscaped(l: seq<byte>, n: nat, rest: seq<byte>, cur: seq<byte>)
    requires n <= |l|
    ensures ReadMaster(Escape(l, n) + rest, cur) == ReadMaster(rest, cur + l[n..])
    decreases |l| - n
  {
    hide ReadMaster, EscapeByte;
    if n == |l| {
      assert Escape(l, n) + rest == rest && cur + l[n..] == cur;
    } else {
      assert Escape(l, n) + rest == EscapeByte(l[n]) + (Escape(l, n + 1) + rest);
      ReadByte(l[n], Escape(l, n + 1) + rest, cur);
      ReadEscaped(l, n + 1, rest, cur + [l[n]]);
      assert cur + [l[n]] + l[n + 1..] == cur + l[n..];
    }
  }

  lemma {:induction false} ReadJoined(ls: seq<seq<byte>>, n: nat)
    requires n <= |ls|
    ensures ReadMaster(Join(ls, n), []) == ls[n..]
    decreases |ls| - n
  {
    hide Escape;
    if n < |ls| {
      var rest := Join(ls, n + 1);
      assert Join(ls, n) == Escape(ls[n], 0) + ([DOT] + rest);
      ReadEscaped(ls[n], 0, [DOT] + rest, []);
      assert [] + ls[n][0..] == ls[n];
      assert ([DOT] + rest)[0] == DOT && ([DOT] + rest)[1..] == rest;
      ReadJoined(ls, n + 1);
      assert [ls[n]] + ls[n + 1..] == ls[n..];
    }
  }

  /** Whatever bytes the labels hold, dots, backslashes and spaces included, the text shown for a name reads
      back as its labels; only the root is shown as a dot. */
  lemma PresentReads(ls: seq<seq<byte>>)
    ensures ls != [] ==> ReadMaster(Present(ls), []) == ls
    ensures Present([]) == [46]
  {
    hide Join, ReadMaster;
    ReadJoined(ls, 0);
    assert ls[0..] == ls;
  }

  /** Label lists equal up to case are rendered equal up to case. */
  lemma PresentSame(a: seq<seq<byte>>, b: seq<seq<byte>>)
    requires SameLabels(a, b)
    ensures SameText(Present(a), Present(b))
  {
    assert |a| == |LowerAll(a)| == |b|;
    JoinLower(a, 0);
    JoinLower(b, 0);
  }

  /** Plain text: nothing the reader would escape. */
  predicate Plain(s: seq<byte>)
  {
    forall i :: 0 <= i < |s| ==> s[i] != BACKSLASH && s[i] != SPACE
  }

  lemma {:induction false} EscapePlain(l: seq<byte>, n: nat)
    requires n <= |l| && Plain(l) && DOT !in l
    ensures Escape(l, n) == l[n..]
    decreases |l| - n
  {
    if n == |l| {
    } else {
      EscapePlain(l, n + 1);
      assert l[n] in l;
      assert l[n..] == [l[n]] + l[n + 1..];
    }
  }

  lemma JoinOne(l: seq<byte>, rest: seq<seq<byte>>)
    requires Plain(l) && DOT !in l
    ensures Join([l] + rest, 0) == l + [DOT] + Join(rest, 0)
  {
    EscapePlain(l, 0);
    assert l[0..] == l;
    JoinShift([l] + rest, 1, 0);
    assert ([l] + rest)[1..] == rest;
  }

  /** On plain text the reader's rendering is the text itself, with one trailing dot. */
  lemma {:induction false} JoinParts(s: seq<byte>, from: nat, pos: nat)
    requires from <= pos <= |s| && Plain(s) && DOT !in s[from..pos]
    ensures Join(Parts(s, from, pos), 0)
         == if from < |s| && s[|s| - 1] != DOT then s[from..] + [DOT] else s[from..]
    decreases |s| - pos
  {
    hide Join, Escape, Plain, Parts;
    PartsCases(s, from, pos);
    var l := s[from..pos];
    if pos == |s| {
      if from < pos {
        JoinLast(s, from);
      } else {
        JoinNone();
      }
    } else if s[pos] == DOT {
      PlainSlice(s, from, pos);
      JoinOne(l, Parts(s, pos + 1, pos + 1));
      JoinParts(s, pos + 1, pos + 1);
      Cut(s, from, pos);
    } else {
      assert s[from..pos + 1] == l + [s[pos]];
      JoinParts(s, from, pos + 1);
    }
  }

  lemma PartsCases(s: seq<byte>, from: nat, pos: nat)
    requires from <= pos <= |s|
    ensures pos == |s| ==> Parts(s, from, pos) == if from < pos then [s[from..pos]] else []
    ensures pos < |s| && s[pos] == DOT ==> Parts(s, from, pos) == [s[from..pos]] + Parts(s, pos + 1, pos + 1)
    ensures pos < |s| && s[pos] != DOT ==> Parts(s, from, pos) == Parts(s, from, pos + 1)
  {
  }

  lemma PlainSlice(s: seq<byte>, from: nat, pos: nat)
    requires from <= pos <= |s| && Plain(s)
    ensures Plain(s[from..pos])
  {
  }

  lemma JoinNone()
    ensures Join([], 0) == []
  {
  }

  /** The last part, without a dot after it. */
  lemma JoinLast(s: seq<byte>, from: nat)
    requires from < |s| && Plain(s) && DOT !in s[from..]
    ensures Join([s[from..|s|]], 0) == s[from..] + [DOT] && s[|s| - 1] != DOT
  {
    hide Join, Plain;
    var l := s[from..];
    PlainSlice(s, from, |s|);
    assert s[from..|s|] == l;
    JoinOne(l, []);
    JoinNone();
    assert [l] + [] == [l] && s[|s| - 1] == l[|l| - 1];
  }

  lemma Cut(s: seq<byte>, from: nat, pos: nat)
    requires from <= pos < |s|
    ensures s[from..] == s[from..pos] + [s[pos]] + s[pos + 1..]
    ensures s[from..] + [DOT] == s[from..pos] + [s[pos]] + (s[pos + 1..] + [DOT])
  {
  }

  lemma {:induction false} JoinShift(ls: seq<seq<byte>>, k: nat, n: nat)
    requires k + n <= |ls|
    ensures Join(ls, k + n) == Join(ls[k..], n)
    decreases |ls| - n
  {
    hide Escape;
    if k + n == |ls| {
    } else {
      JoinShift(ls, k, n + 1);
      assert ls[k..][n] == ls[k + n];
    }
  }
}
