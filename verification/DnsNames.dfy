/**
  Domain names in DNS messages (dnswire.go): section 4.1.4 of RFC 1035, read the
  way readName reads them. Text is kept as bytes.
 */
module DnsNames {
  import opened Wrappers
  import opened Splitting

  type Byte = b: int | 0 <= b < 256

  type Text = seq<Byte>

  const DOT: Byte := 46
  const MAX_JUMPS: nat := 16
  /** readName takes every length byte below 192 for a label, also the reserved ones from 64. */
  const MAX_LABEL: nat := 191

  function U16(msg: Text, pos: nat): nat
    requires pos + 1 < |msg|
  {
    msg[pos] as int * 256 + msg[pos + 1] as int
  }

  /** Where the two bytes of a pointer point to. */
  function PointerTarget(msg: Text, pos: nat): nat
    requires pos + 1 < |msg| && msg[pos] >= 192
  {
    U16(msg, pos) - 49152
  }

  // ---------- names as written ----------

  /** How a name is written: labels, then the root or a pointer to the place where the name goes on. */
  datatype NameForm =
    | Root
    | Label(text: Text, rest: NameForm)
    | Pointer(target: nat, rest: NameForm)

  function Labels(f: NameForm): seq<Text> {
    match f
    case Root => []
    case Label(text, rest) => [text] + Labels(rest)
    case Pointer(_, rest) => Labels(rest)
  }

  function Hops(f: NameForm): nat {
    match f
    case Root => 0
    case Label(_, rest) => Hops(rest)
    case Pointer(_, rest) => 1 + Hops(rest)
  }

  /** The name is written at this position of the message. */
  predicate At(msg: Text, pos: nat, f: NameForm)
    decreases f
  {
    match f
    case Root => pos < |msg| && msg[pos] == 0
    case Label(text, rest) =>
      && 1 <= |text| < 192 && pos + 1 + |text| <= |msg|
      && msg[pos] == |text| && msg[pos + 1..pos + 1 + |text|] == text
      && At(msg, pos + 1 + |text|, rest)
    case Pointer(target, rest) =>
      && pos + 1 < |msg| && target < 16384
      && msg[pos] == 192 + target / 256 && msg[pos + 1] == target % 256
      && At(msg, target, rest)
  }

  /** Where the bytes written at the position itself end. */
  function End(pos: nat, f: NameForm): nat
    decreases f
  {
    match f
    case Root => pos + 1
    case Label(text, rest) => End(pos + 1 + |text|, rest)
    case Pointer(_, _) => pos + 2
  }

  // ---------- reading ----------

  datatype Reading = Reading(labels: seq<Text>, end: nat)

  /** The labels read from a position with `jumps` pointers already followed, and where the name ends there. */
  function ReadLabels(msg: Text, pos: nat, jumps: nat): Option<Reading>
    requires jumps <= MAX_JUMPS
    decreases MAX_JUMPS - jumps, |msg| - pos
  {
    if pos >= |msg| then None
    else if msg[pos] == 0 then Some(Reading([], pos + 1))
    else if msg[pos] >= 192 then
      if pos + 1 >= |msg| || jumps == MAX_JUMPS then None
      else
        match ReadLabels(msg, PointerTarget(msg, pos), jumps + 1)
        case None => None
        case Some(r) => Some(Reading(r.labels, pos + 2))
    else if pos + 1 + msg[pos] > |msg| then None
    else
      match ReadLabels(msg, pos + 1 + msg[pos], jumps)
      case None => None
      case Some(r) => Some(Reading([msg[pos + 1..pos + 1 + msg[pos]]] + r.labels, r.end))
  }

  lemma PointerIsRead(msg: Text, pos: nat, target: nat)
    requires pos + 1 < |msg| && target < 16384
    requires msg[pos] == 192 + target / 256 && msg[pos + 1] == target % 256
    ensures msg[pos] >= 192 && PointerTarget(msg, pos) == target
  {
  }

  /** Every name as written is read, if it takes few enough jumps. */
  lemma {:induction false} WrittenNamesAreRead(msg: Text, pos: nat, f: NameForm, jumps: nat)
    requires At(msg, pos, f) && jumps + Hops(f) <= MAX_JUMPS
    ensures ReadLabels(msg, pos, jumps) == Some(Reading(Labels(f), End(pos, f)))
    decreases f
  {
    match f
    case Root =>
    case Label(text, rest) =>
      WrittenNamesAreRead(msg, pos + 1 + |text|, rest, jumps);
    case Pointer(target, rest) =>
      PointerIsRead(msg, pos, target);
      hide PointerTarget;
      WrittenNamesAreRead(msg, target, rest, jumps + 1);
  }

  lemma PointerBytes(msg: Text, pos: nat)
    requires pos + 1 < |msg| && msg[pos] >= 192
    ensures var target := PointerTarget(msg, pos);
            target < 16384 && msg[pos] == 192 + target / 256 && msg[pos + 1] == target % 256
  {
  }

  /** Whatever is read is written there. */
  lemma {:induction false} ReadNamesAreWritten(msg: Text, pos: nat, jumps: nat) returns (f: NameForm)
    requires jumps <= MAX_JUMPS && ReadLabels(msg, pos, jumps).Some?
    ensures At(msg, pos, f) && jumps + Hops(f) <= MAX_JUMPS
    ensures ReadLabels(msg, pos, jumps).value == Reading(Labels(f), End(pos, f))
    decreases MAX_JUMPS - jumps, |msg| - pos
  {
    if msg[pos] == 0 {
      f := Root;
    } else if msg[pos] >= 192 {
      PointerBytes(msg, pos);
      hide PointerTarget;
      var target := PointerTarget(msg, pos);
      var rest := ReadNamesAreWritten(msg, target, jumps + 1);
      f := Pointer(target, rest);
    } else {
      var text := msg[pos + 1..pos + 1 + msg[pos]];
      var rest := ReadNamesAreWritten(msg, pos + 1 + msg[pos], jumps);
      f := Label(text, rest);
    }
  }

  /** Two bytes are a number, the high one first. */
  lemma U16IsBigEndian(msg: Text, pos: nat, v: nat)
    requires pos + 1 < |msg| && v < 65536
    ensures U16(msg, pos) == v <==> msg[pos] == v / 256 && msg[pos + 1] == v % 256
  {
  }

  /** Reading succeeds exactly where a name is written that takes at most 16 jumps, and returns that name. */
  lemma ReadingIsExact(msg: Text, pos: nat, labels: seq<Text>, end: nat)
    ensures ReadLabels(msg, pos, 0) == Some(Reading(labels, end)) <==>
            exists f :: At(msg, pos, f) && Hops(f) <= 16 && Labels(f) == labels && End(pos, f) == end
  {
    hide At, ReadLabels;
    if ReadLabels(msg, pos, 0).Some? {
      var f := ReadNamesAreWritten(msg, pos, 0);
    }
    forall f | At(msg, pos, f) && Hops(f) <= MAX_JUMPS
      ensures ReadLabels(msg, pos, 0) == Some(Reading(Labels(f), End(pos, f)))
    {
      WrittenNamesAreRead(msg, pos, f, 0);
    }
  }

  /** A message holds at most one name at each position. */
  lemma {:induction false} OneNamePerPosition(msg: Text, pos: nat, f: NameForm, g: NameForm)
    requires At(msg, pos, f) && At(msg, pos, g)
    ensures f == g
    decreases f
  {
    match f
    case Root =>
    case Label(text, rest) =>
      OneNamePerPosition(msg, pos + 1 + |text|, rest, g.rest);
    case Pointer(target, rest) =>
      OneNamePerPosition(msg, target, rest, g.rest);
  }

  // ---------- names as text ----------

  function LowerByte(b: Byte): Byte {
    if 65 <= b <= 90 then (b as int + 32) as Byte else b
  }

  function Lower(s: Text): (r: Text)
    ensures |r| == |s|
    ensures forall i :: 0 <= i < |s| ==> r[i] == LowerByte(s[i])
  {
    if s == [] then [] else Lower(s[..|s| - 1]) + [LowerByte(s[|s| - 1])]
  }

  const CAPITALS: Text := [65, 66, 67, 68, 69, 70, 71, 72, 73, 74, 75, 76, 77, 78, 79, 80, 81, 82, 83, 84, 85, 86, 87, 88, 89, 90]

  /** The capital ASCII letters A to Z become a to z, 32 further on; all other bytes stay. */
  lemma LowerByteIs(b: Byte)
    ensures LowerByte(b) == if b in CAPITALS then b as int + 32 else b as int
  {
    assert forall k :: 0 <= k < 26 ==> CAPITALS[k] == 65 + k;
    if 65 <= b <= 90 {
      assert CAPITALS[b - 65] == b;
    }
  }

  /** The labels with dots between them. */
  function Join(labels: seq<Text>): Text {
    if labels == [] then []
    else if |labels| == 1 then labels[0]
    else Join(labels[..|labels| - 1]) + [DOT] + labels[|labels| - 1]
  }

  function NameOf(labels: seq<Text>): Text {
    Lower(Join(labels))
  }

  lemma JoinSnoc(labels: seq<Text>, l: Text)
    requires labels != []
    ensures Join(labels + [l]) == Join(labels) + [DOT] + l
  {
    assert (labels + [l])[..|labels + [l]| - 1] == labels;
  }

  method ToLower(s: Text) returns (r: Text)
    ensures r == Lower(s)
  {
    r := s;
    for i := 0 to |s|
      invariant |r| == |s|
      invariant forall j :: 0 <= j < i ==> r[j] == LowerByte(s[j])
      invariant forall j :: i <= j < |s| ==> r[j] == s[j]
    {
      var c := s[i];
      if 65 <= c <= 90 {
        r := r[i := LowerByte(c)];
      }
    }
    assert r == Lower(s);
  }

  method JoinLabels(labels: seq<Text>) returns (out: Text)
    ensures out == NameOf(labels)
  {
    hide Lower;
    if |labels| == 0 {
      out := ToLower([]);
      return;
    }
    out := labels[0];
    for i := 1 to |labels|
      invariant out == Join(labels[..i])
    {
      assert labels[..i + 1] == labels[..i] + [labels[i]];
      JoinSnoc(labels[..i], labels[i]);
      out := out + [DOT] + labels[i];
    }
    assert labels[..|labels|] == labels;
    out := ToLower(out);
  }

  datatype NameResult = NoName | Name(name: Text, next: nat)

  /** What the recursive reading says about the loop after some labels and jumps. */
  predicate Resumes(whole: Option<Reading>, tail: Option<Reading>, labels: seq<Text>, next: int) {
    match tail
    case None => whole.None?
    case Some(r) => whole == Some(Reading(labels + r.labels, if next < 0 then r.end else next))
  }

  lemma ResumesAtStart(whole: Option<Reading>)
    ensures Resumes(whole, whole, [], -1)
  {
    assert whole.Some? ==> [] + whole.value.labels == whole.value.labels;
  }

  lemma ResumesAfterJump(whole: Option<Reading>, msg: Text, pos: nat, jumps: nat, labels: seq<Text>, next: int)
    requires jumps <= MAX_JUMPS && pos + 1 < |msg| && msg[pos] >= 192
    requires Resumes(whole, ReadLabels(msg, pos, jumps), labels, next)
    ensures jumps == MAX_JUMPS ==> whole.None?
    ensures jumps < MAX_JUMPS ==>
              Resumes(whole, ReadLabels(msg, PointerTarget(msg, pos), jumps + 1), labels, if next < 0 then pos + 2 else next)
  {
  }

  lemma ResumesAfterLabel(whole: Option<Reading>, msg: Text, pos: nat, jumps: nat, labels: seq<Text>, next: int)
    requires jumps <= MAX_JUMPS && pos < |msg| && 0 < msg[pos] < 192 && pos + 1 + msg[pos] <= |msg|
    requires Resumes(whole, ReadLabels(msg, pos, jumps), labels, next)
    ensures Resumes(whole, ReadLabels(msg, pos + 1 + msg[pos], jumps), labels + [msg[pos + 1..pos + 1 + msg[pos]]], next)
  {
    var text, tail := msg[pos + 1..pos + 1 + msg[pos]], ReadLabels(msg, pos + 1 + msg[pos], jumps);
    assert tail.Some? ==> labels + ([text] + tail.value.labels) == (labels + [text]) + tail.value.labels;
  }

  lemma ResumesAtEnd(whole: Option<Reading>, msg: Text, pos: nat, jumps: nat, labels: seq<Text>, next: int)
    requires jumps <= MAX_JUMPS
    requires Resumes(whole, ReadLabels(msg, pos, jumps), labels, next)
    ensures pos >= |msg| ==> whole.None?
    ensures pos < |msg| && msg[pos] == 0 ==> whole == Some(Reading(labels, if next < 0 then pos + 1 else next))
    ensures pos < |msg| && msg[pos] >= 192 && pos + 1 >= |msg| ==> whole.None?
    ensures pos < |msg| && 0 < msg[pos] < 192 && pos + 1 + msg[pos] > |msg| ==> whole.None?
  {
    assert labels + [] == labels;
  }

  /** readName: at every position it returns the name written there, or that none is. */
  method ReadName(msg: Text, start: nat) returns (r: NameResult)
    ensures match ReadLabels(msg, start, 0)
            case None => r == NoName
            case Some(reading) => r == Name(NameOf(reading.labels), reading.end)
  {
    hide NameOf, ReadLabels, Resumes, PointerTarget;
    var labels: seq<Text> := [];
    var next: int := -1;
    var jumps: nat := 0;
    var pos: nat := start;
    ghost var whole := ReadLabels(msg, start, 0);
    ResumesAtStart(whole);
    while true
      invariant jumps <= MAX_JUMPS && next >= -1
      invariant Resumes(whole, ReadLabels(msg, pos, jumps), labels, next)
      decreases MAX_JUMPS - jumps, |msg| - pos
    {
      ResumesAtEnd(whole, msg, pos, jumps, labels, next);
      if pos >= |msg| {
        return NoName;
      }
      var b := msg[pos];
      if b == 0 {
        if next < 0 {
          next := pos + 1;
        }
        var name := JoinLabels(labels);
        return Name(name, next);
      } else if b >= 192 {
        if pos + 1 >= |msg| {
          return NoName;
        }
        ResumesAfterJump(whole, msg, pos, jumps, labels, next);
        if next < 0 {
          next := pos + 2;
        }
        pos := PointerTarget(msg, pos);
        jumps := jumps + 1;
        if jumps > MAX_JUMPS {
          return NoName;
        }
      } else {
        if pos + 1 + b > |msg| {
          return NoName;
        }
        ResumesAfterLabel(whole, msg, pos, jumps, labels, next);
        labels := labels + [msg[pos + 1..pos + 1 + b]];
        pos := pos + 1 + b;
      }
    }
  }

  /** The position a reading ends at lies inside the message. */
  lemma {:induction false} ReadingEndsInside(msg: Text, pos: nat, jumps: nat)
    requires jumps <= MAX_JUMPS && ReadLabels(msg, pos, jumps).Some?
    ensures pos < ReadLabels(msg, pos, jumps).value.end <= |msg|
    ensures forall l :: l in ReadLabels(msg, pos, jumps).value.labels ==> 1 <= |l| <= MAX_LABEL
    decreases MAX_JUMPS - jumps, |msg| - pos
  {
    if msg[pos] == 0 {
    } else if msg[pos] >= 192 {
      ReadingEndsInside(msg, PointerTarget(msg, pos), jumps + 1);
    } else {
      ReadingEndsInside(msg, pos + 1 + msg[pos], jumps);
    }
  }

  // ---------- splitting a name at its dots ----------

  lemma JoinOne(l: Text)
    ensures Join([l]) == l
  {
  }

  lemma SliceOfSlice<T>(s: seq<T>, from: nat, to: nat, i: nat, j: nat)
    requires from <= to <= |s| && i <= j <= to - from
    ensures s[from..to][i..j] == s[from + i..from + j]
  {
    var a, b := s[from..to][i..j], s[from + i..from + j];
    assert |a| == |b| && forall k :: 0 <= k < |a| ==> a[k] == b[k];
  }

  lemma JoinLonger(most: seq<Text>, last: Text, c: Byte)
    ensures Join(most + [last + [c]]) == Join(most + [last]) + [c]
  {
    hide Join;
    if most != [] {
      JoinSnoc(most, last);
      JoinSnoc(most, last + [c]);
      Assoc(Join(most) + [DOT], last, [c]);
    } else {
      assert most + [last] == [last] && most + [last + [c]] == [last + [c]];
      JoinOne(last);
      JoinOne(last + [c]);
    }
  }

  lemma {:induction false} JoinOfSplit(s: Text)
    ensures Join(Split(s, DOT)) == s
  {
    if s != [] {
      hide Join;
      var front, c := Split(s[..|s| - 1], DOT), s[|s| - 1];
      JoinOfSplit(s[..|s| - 1]);
      assert s == s[..|s| - 1] + [c];
      if c == DOT {
        JoinSnoc(front, []);
      } else {
        assert front == front[..|front| - 1] + [front[|front| - 1]];
        JoinLonger(front[..|front| - 1], front[|front| - 1], c);
      }
    }
  }

  lemma LowerKeepsLowercase(s: Text)
    ensures Lower(Lower(s)) == Lower(s)
  {
  }

  // ---------- writing a name ----------

  /** The pieces are written from `pos` to `end`, each after its length. */
  predicate PiecesAt(msg: Text, pos: nat, pieces: seq<Text>, end: nat)
    decreases |pieces|
  {
    if pieces == [] then pos == end
    else
      var p := pieces[0];
      && pos + 1 + |p| <= |msg| && msg[pos] == |p| && msg[pos + 1..pos + 1 + |p|] == p
      && PiecesAt(msg, pos + 1 + |p|, pieces[1..], end)
  }

  lemma {:induction false} PiecesStay(msg: Text, more: Text, pos: nat, pieces: seq<Text>, end: nat)
    requires PiecesAt(msg, pos, pieces, end)
    ensures PiecesAt(msg + more, pos, pieces, end)
    decreases |pieces|
  {
    if pieces != [] {
      var p := pieces[0];
      assert (msg + more)[pos + 1..pos + 1 + |p|] == msg[pos + 1..pos + 1 + |p|];
      PiecesStay(msg, more, pos + 1 + |p|, pieces[1..], end);
    }
  }

  lemma {:induction false} PiecesSnoc(msg: Text, pos: nat, pieces: seq<Text>, end: nat, p: Text)
    requires PiecesAt(msg, pos, pieces, end) && end + 1 + |p| <= |msg|
    requires msg[end] == |p| && msg[end + 1..end + 1 + |p|] == p
    ensures PiecesAt(msg, pos, pieces + [p], end + 1 + |p|)
    decreases |pieces|
  {
    if pieces == [] {
      assert (pieces + [p])[1..] == [];
    } else {
      assert (pieces + [p])[1..] == pieces[1..] + [p];
      PiecesSnoc(msg, pos + 1 + |pieces[0]|, pieces[1..], end, p);
    }
  }

  /** Appending one piece after the others. */
  lemma PieceIsAppended(msg: Text, pos: nat, pieces: seq<Text>, p: Text)
    requires PiecesAt(msg, pos, pieces, |msg|) && |p| <= MAX_LABEL
    ensures PiecesAt(msg + [|p| as Byte] + p, pos, pieces + [p], |msg| + 1 + |p|)
  {
    var after := msg + [|p| as Byte] + p;
    Assoc(msg, [|p| as Byte], p);
    PiecesStay(msg, [|p| as Byte] + p, pos, pieces, |msg|);
    PiecesSnoc(after, pos, pieces, |msg|, p);
  }

  /** How many pieces come before the first empty one. */
  function Proper(pieces: seq<Text>): (n: nat)
    ensures n <= |pieces|
    ensures forall i :: 0 <= i < n ==> pieces[i] != []
    ensures n < |pieces| ==> pieces[n] == []
  {
    if pieces == [] || pieces[0] == [] then 0 else 1 + Proper(pieces[1..])
  }

  /** Written pieces are read back up to the first empty one, which ends the name. */
  lemma {:induction false} WrittenPiecesAreRead(msg: Text, pos: nat, pieces: seq<Text>, end: nat, jumps: nat)
    requires jumps <= MAX_JUMPS
    requires forall p :: p in pieces ==> |p| <= MAX_LABEL
    requires PiecesAt(msg, pos, pieces, end) && end < |msg| && msg[end] == 0
    ensures var r := ReadLabels(msg, pos, jumps);
            && r.Some? && r.value.labels == pieces[..Proper(pieces)]
            && r.value.end <= end + 1
            && (Proper(pieces) == |pieces| ==> r.value.end == end + 1)
    decreases |pieces|
  {
    if pieces != [] {
      var p := pieces[0];
      PiecesEnd(msg, pos, pieces, end);
      if p != [] {
        WrittenPiecesAreRead(msg, pos + 1 + |p|, pieces[1..], end, jumps);
        assert pieces[..1 + Proper(pieces[1..])] == [p] + pieces[1..][..Proper(pieces[1..])];
      }
    }
  }

  lemma {:induction false} PiecesEnd(msg: Text, pos: nat, pieces: seq<Text>, end: nat)
    requires PiecesAt(msg, pos, pieces, end)
    ensures pos + |pieces| <= end && (pieces != [] ==> end <= |msg|)
    decreases |pieces|
  {
    if pieces != [] {
      PiecesEnd(msg, pos + 1 + |pieces[0]|, pieces[1..], end);
    }
  }

  lemma {:induction false} PrefixJoinsShorter(pieces: seq<Text>, n: nat)
    requires n < |pieces| && (n == 0 ==> Join(pieces) != [])
    ensures |Join(pieces[..n])| < |Join(pieces)|
    decreases |pieces|
  {
    if n == 0 {
    } else if n == |pieces| - 1 {
    } else {
      assert pieces[..|pieces| - 1][..n] == pieces[..n];
      PrefixJoinsShorter(pieces[..|pieces| - 1], n);
    }
  }

  // ---------- labels and dots ----------

  function LowerAll(labels: seq<Text>): (r: seq<Text>)
    ensures |r| == |labels|
    ensures forall i :: 0 <= i < |labels| ==> r[i] == Lower(labels[i])
  {
    if labels == [] then [] else LowerAll(labels[..|labels| - 1]) + [Lower(labels[|labels| - 1])]
  }

  /** No label contains a dot. */
  predicate AllDotless(labels: seq<Text>) {
    forall l :: l in labels ==> DOT !in l
  }

  lemma LowerAppends(a: Text, b: Text)
    ensures Lower(a + b) == Lower(a) + Lower(b)
  {
    assert forall i :: 0 <= i < |a + b| ==> Lower(a + b)[i] == (Lower(a) + Lower(b))[i];
  }

  lemma {:induction false} LowerOfJoin(labels: seq<Text>)
    ensures Lower(Join(labels)) == Join(LowerAll(labels))
  {
    if |labels| > 1 {
      hide Lower, Join;
      var front, last := labels[..|labels| - 1], labels[|labels| - 1];
      assert labels == front + [last];
      LowerOfJoin(front);
      JoinSnoc(front, last);
      LowerAppends(Join(front) + [DOT], last);
      LowerAppends(Join(front), [DOT]);
      LowerOfDot();
      JoinSnoc(LowerAll(front), Lower(last));
      assert LowerAll(labels) == LowerAll(front) + [Lower(last)];
    } else if |labels| == 1 {
      JoinOne(labels[0]);
      JoinOne(Lower(labels[0]));
      assert LowerAll(labels) == [Lower(labels[0])];
    }
  }

  lemma LowerOfDot()
    ensures Lower([DOT]) == [DOT]
  {
    assert Lower([DOT])[0] == LowerByte([DOT][0]) == DOT;
  }

  lemma LowerKeepsDots(l: Text)
    ensures DOT in Lower(l) <==> DOT in l
  {
    if DOT in l {
      var i :| 0 <= i < |l| && l[i] == DOT;
      assert Lower(l)[i] == DOT;
    }
    if DOT in Lower(l) {
      var i :| 0 <= i < |l| && Lower(l)[i] == DOT;
      assert l[i] == DOT;
    }
  }

  lemma LowerAllKeepsDots(labels: seq<Text>)
    ensures AllDotless(LowerAll(labels)) <==> AllDotless(labels)
    ensures LowerAll(LowerAll(labels)) == LowerAll(labels)
  {
    hide Lower;
    forall i | 0 <= i < |labels|
      ensures DOT in Lower(labels[i]) <==> DOT in labels[i]
      ensures Lower(Lower(labels[i])) == Lower(labels[i])
    {
      LowerKeepsDots(labels[i]);
      LowerKeepsLowercase(labels[i]);
    }
    var lower := LowerAll(labels);
    assert forall i :: 0 <= i < |labels| ==> lower[i] in lower && labels[i] in labels;
  }

  lemma {:induction false} SplitOfJoin(labels: seq<Text>)
    requires labels != [] && AllDotless(labels)
    ensures Split(Join(labels), DOT) == labels
  {
    var front, last := labels[..|labels| - 1], labels[|labels| - 1];
    assert labels == front + [last];
    assert last in labels && forall l :: l in front ==> l in labels;
    SplitWithout(last, DOT);
    if front != [] {
      SplitOfJoin(front);
      JoinSnoc(front, last);
      SplitAppends(Join(front), last, DOT);
    } else {
      assert labels == [last];
      JoinOne(last);
    }
  }

  /** Labels without dots are the pieces of their name. */
  lemma PiecesOfDotless(labels: seq<Text>)
    requires AllDotless(labels) && forall l :: l in labels ==> l != []
    ensures Pieces(NameOf(labels)) == LowerAll(labels)
    ensures forall l :: l in LowerAll(labels) ==> l != []
  {
    hide Lower, Split;
    LowerOfJoin(labels);
    LowerAllKeepsDots(labels);
    var lower := LowerAll(labels);
    forall i | 0 <= i < |labels|
      ensures lower[i] != []
    {
      assert labels[i] in labels;
    }
    if labels != [] {
      SplitOfJoin(lower);
      JoinIsNotEmpty(lower);
    }
  }

  lemma {:induction false} JoinIsNotEmpty(labels: seq<Text>)
    requires labels != [] && labels[0] != []
    ensures Join(labels) != []
  {
    if |labels| > 1 {
      JoinIsNotEmpty(labels[..|labels| - 1]);
    }
  }

  /** The labels a name is written as. */
  function Pieces(name: Text): seq<Text> {
    if name == [] then [] else Split(name, DOT)
  }

  lemma PiecesJoin(name: Text)
    ensures Join(Pieces(name)) == name
  {
    JoinOfSplit(name);
  }

  /** A name is read back from its written pieces exactly when no piece is empty. */
  lemma NameIsReadBack(msg: Text, pos: nat, name: Text, end: nat)
    requires name == Lower(name) && forall p :: p in Pieces(name) ==> |p| <= MAX_LABEL
    requires PiecesAt(msg, pos, Pieces(name), end) && end < |msg| && msg[end] == 0
    ensures var pieces := Pieces(name);
            var r := ReadLabels(msg, pos, 0);
            && r.Some? && (NameOf(r.value.labels) == name <==> forall p :: p in pieces ==> p != [])
            && r.value.end <= end + 1
            && ((forall p :: p in pieces ==> p != []) ==> r.value.end == end + 1)
  {
    hide Lower, PiecesAt, ReadLabels, Split;
    var pieces := Pieces(name);
    WrittenPiecesAreRead(msg, pos, pieces, end, 0);
    PiecesJoin(name);
    var n := Proper(pieces);
    if n == |pieces| {
      assert pieces[..n] == pieces;
    } else {
      assert pieces[n] in pieces;
      PrefixJoinsShorter(pieces, n);
    }
  }
}
