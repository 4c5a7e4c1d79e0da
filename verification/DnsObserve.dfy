/** Answers observed on their way through encrypted DNS (dns_observe.go). */
module DnsObserve {
  import opened Wrappers
  import opened Lists
  import opened Splitting
  import opened DnsNames
  import opened DnsMessages
  import opened DnsReplies

  datatype ObserveError = QuestionMismatch | Malformed

  function TrimDot(name: Text): Text {
    if name != [] && name[|name| - 1] == DOT then name[..|name| - 1] else name
  }

  predicate SameName(a: Text, b: Text) {
    Lower(TrimDot(a)) == Lower(TrimDot(b))
  }

  /** Where the first name ends, if one is written there. */
  function QuestionEnd(msg: Text): Option<nat> {
    match ReadLabels(msg, HEADER, 0)
    case None => None
    case Some(r) => Some(r.end)
  }

  /** A response to exactly one question, about the expected name. */
  predicate AnswersQuestion(response: Text, expected: Text) {
    && QuestionOf(response).Some? && QuestionEnd(response).Some?
    && QuestionEnd(response).value + 4 <= |response|
    && response[4] == 0 && response[5] == 1 && response[2] >= 128
    && SameName(QuestionOf(response).value.name, expected)
  }

  /** The response says there is nothing to connect to, or is cut short. */
  predicate Negative(response: Text)
    requires |response| >= HEADER
  {
    Truncated(response[2]) || response[3] % 16 != 0 || Sinkhole(response)
  }

  /** Where n records from this position end, if all of them can be read. */
  function WalkRecords(msg: Text, pos: nat, n: nat): Option<nat>
    decreases n
  {
    if n == 0 then Some(pos)
    else
      match ReadRecord(msg, pos)
      case None => None
      case Some(r) => WalkRecords(msg, r.end, n - 1)
  }

  /** Question and records fill the message exactly. */
  predicate Complete(msg: Text) {
    && |msg| >= HEADER && QuestionEnd(msg).Some?
    && WalkRecords(msg, QuestionEnd(msg).value + 4, RecordCount(msg)) == Some(|msg|)
  }

  method ValidatedDNSAnswerIPs(expected: Text, response: Text) returns (r: Result<seq<IP>, ObserveError>)
    ensures r == Err(QuestionMismatch) <==> !AnswersQuestion(response, expected)
    ensures r == Err(Malformed) <==> AnswersQuestion(response, expected) && !Negative(response) && !Complete(response)
    ensures r.Ok? && Negative(response) ==> r.value == []
    ensures r.Ok? && !Negative(response) ==> r.value == Dedup(AnswerAddresses(response))
  {
    hide ReadLabels, NameOf, Lower, U16, ReadRecord, Sinkhole, Dedup, AnswerAddresses;
    var question := QuestionInfo(response);
    var first := ReadName(response, HEADER);
    if question.None? || first.NoName? || |response| < first.next + 4 || response[4] != 0 || response[5] != 1 || response[2] < 128 {
      return Err(QuestionMismatch);
    }
    if !SameName(question.value.name, expected) {
      return Err(QuestionMismatch);
    }
    if Truncated(response[2]) || response[3] % 16 != 0 {
      return Ok([]);
    }
    var sunk := IsSinkholeResponse(response);
    if sunk {
      return Ok([]);
    }
    var pos: nat := first.next + 4;
    var records: nat := U16(response, 6) + U16(response, 8) + U16(response, 10);
    for i := 0 to records
      invariant WalkRecords(response, first.next + 4, records) == WalkRecords(response, pos, records - i)
    {
      var record := LocateRecord(response, pos);
      if record.None? {
        return Err(Malformed);
      }
      pos := record.value.end;
    }
    if pos != |response| {
      return Err(Malformed);
    }
    var ips := AnswerIPs(response);
    return Ok(ips);
  }

  lemma {:induction false} WalkReadsEveryRecord(msg: Text, pos: nat, n: nat, m: nat)
    requires WalkRecords(msg, pos, n).Some? && m <= n
    ensures |ReadRecords(msg, pos, m)| == m
    decreases m
  {
    hide ReadRecord;
    if m > 0 {
      WalkReadsEveryRecord(msg, ReadRecord(msg, pos).value.end, n - 1, m - 1);
    }
  }

  /** A hint that is accepted comes from a complete, positive answer to the question: no answer record was skipped. */
  lemma AcceptedHintsAreComplete(expected: Text, response: Text)
    requires AnswersQuestion(response, expected) && Complete(response)
    ensures var pos := QuestionEnd(response).value + 4;
            && SkipQuestions(response, HEADER, U16(response, 4)) == Some(pos)
            && |ReadRecords(response, pos, U16(response, 6))| == U16(response, 6)
            && AnswerAddresses(response) == RecordAddresses(response, ReadRecords(response, pos, U16(response, 6)))
  {
    hide ReadLabels, ReadRecord, ReadRecords, WalkRecords, RecordAddresses, SameName, QuestionOf;
    var pos := QuestionEnd(response).value + 4;
    assert U16(response, 4) == 1;
    assert SkipQuestions(response, pos, 0) == Some(pos);
    WalkReadsEveryRecord(response, pos, RecordCount(response), U16(response, 6));
  }

  // ---------- the question rebuilt from the response ----------

  function RebuiltPieces(name: Text): seq<Text> {
    if name == [] then [] else Split(TrimDot(name), DOT)
  }

  lemma {:induction false} JoinedPiecesAreShort(labels: seq<Text>)
    requires forall l :: l in labels ==> |l| <= MAX_LABEL
    ensures forall p :: p in Split(Join(labels), DOT) ==> |p| <= MAX_LABEL
  {
    hide Split;
    if labels == [] {
      PiecesAreShorter([], DOT);
    } else {
      var front, last := labels[..|labels| - 1], labels[|labels| - 1];
      assert last in labels && forall l :: l in front ==> l in labels;
      PiecesAreShorter(last, DOT);
      if front == [] {
        assert labels == [last];
      } else {
        JoinedPiecesAreShort(front);
        SplitAppends(Join(front), last, DOT);
      }
    }
  }

  /** Two lists of pieces of the same lengths. */
  predicate SameShape(a: seq<Text>, b: seq<Text>) {
    |a| == |b| && forall i :: 0 <= i < |a| ==> |a[i]| == |b[i]|
  }

  lemma SameShapeStep(a: seq<Text>, b: seq<Text>, c: Byte, d: Byte)
    requires a != [] && SameShape(a, b)
    ensures SameShape(a + [[]], b + [[]])
    ensures b != [] && SameShape(a[..|a| - 1] + [a[|a| - 1] + [c]], b[..|b| - 1] + [b[|b| - 1] + [d]])
  {
  }

  lemma {:induction false} LowerKeepsPieces(s: Text)
    ensures SameShape(Split(Lower(s), DOT), Split(s, DOT))
  {
    if s != [] {
      var front, c := s[..|s| - 1], s[|s| - 1];
      LowerKeepsPieces(front);
      assert s == front + [c] && Lower(s) == Lower(front) + [LowerByte(c)];
      hide Split, Lower, SameShape;
      SplitSnoc(front, c, DOT);
      SplitSnoc(Lower(front), LowerByte(c), DOT);
      SameShapeStep(Split(Lower(front), DOT), Split(front, DOT), LowerByte(c), c);
    }
  }

  lemma ShortPieces(a: seq<Text>, b: seq<Text>, max: nat)
    requires SameShape(a, b) && forall p :: p in b ==> |p| <= max
    ensures forall p :: p in a ==> |p| <= max
  {
    forall i | 0 <= i < |a|
      ensures |a[i]| <= max
    {
      assert b[i] in b;
    }
  }

  /** Names that were read have pieces short enough for a length byte. */
  lemma RebuiltPiecesAreShort(msg: Text)
    requires QuestionOf(msg).Some?
    ensures forall p :: p in RebuiltPieces(QuestionOf(msg).value.name) ==> |p| <= MAX_LABEL
  {
    hide ReadLabels, Join, Lower;
    var labels := ReadLabels(msg, HEADER, 0).value.labels;
    var name := NameOf(labels);
    ReadingEndsInside(msg, HEADER, 0);
    JoinedPiecesAreShort(labels);
    LowerKeepsPieces(Join(labels));
    ShortPieces(Split(name, DOT), Split(Join(labels), DOT), MAX_LABEL);
    if name != [] && name[|name| - 1] == DOT {
      assert Split(name, DOT) == Split(TrimDot(name), DOT) + [[]];
    }
  }

  predicate HasQuestion(response: Text) {
    QuestionOf(response).Some? && QuestionEnd(response).Some? && QuestionEnd(response).value + 4 <= |response|
  }

  /** A message of the response's question alone. */
  predicate IsRebuilt(response: Text, q: Text, end: nat)
    requires HasQuestion(response)
  {
    var at := QuestionEnd(response).value;
    IsQuestionOnly(q, RebuiltPieces(QuestionOf(response).value.name), end, response[at..at + 4])
  }

  method RebuildQuestion(response: Text) returns (q: Text)
    requires HasQuestion(response)
    ensures exists end :: IsRebuilt(response, q, end)
    ensures q[0..4] == response[0..4]
  {
    hide ReadLabels, NameOf, RebuiltPieces, PiecesAt, Lower;
    var asked := QuestionInfo(response);
    var first := ReadName(response, HEADER);
    RebuiltPiecesAreShort(response);
    var header := response[..HEADER][4 := 0][5 := 1];
    for i := 6 to HEADER
      invariant |header| == HEADER && header[..4] == response[..4] && header[4] == 0 && header[5] == 1
      invariant forall j :: 6 <= j < i ==> header[j] == 0
    {
      header := header[i := 0];
    }
    var pieces := RebuiltPieces(asked.value.name);
    q := AppendPieces(header, pieces);
    var end, at := |q|, first.next;
    var tail := response[at..at + 4];
    PiecesStay(q, [0] + tail, HEADER, pieces, end);
    ghost var named := q;
    q := q + ([0] + tail);
    assert q[..HEADER] == named[..HEADER] == header;
    assert forall i :: 0 <= i < HEADER ==> q[i] == q[..HEADER][i] == header[i];
    assert q[end + 1..] == tail;
    assert IsRebuilt(response, q, end);
    assert q[0..4] == header[..4];
  }

  lemma TrailingDotLeavesAnEmptyPiece(name: Text)
    requires name != [] && name[|name| - 1] == DOT
    ensures [] in Pieces(name)
  {
    assert Split(name, DOT) == Split(TrimDot(name), DOT) + [[]];
  }

  lemma PlainNameHasNoTrailingDot(labels: seq<Text>)
    requires AllDotless(labels) && forall l :: l in labels ==> l != []
    ensures RebuiltPieces(NameOf(labels)) == LowerAll(labels)
    ensures forall l :: l in LowerAll(labels) ==> l != []
  {
    hide LowerAll, AllDotless, NameOf;
    PiecesOfDotless(labels);
    var name := NameOf(labels);
    if name != [] && name[|name| - 1] == DOT {
      TrailingDotLeavesAnEmptyPiece(name);
    }
  }

  /** Labels without dots or empty labels can be echoed when they are as short as labels must be. */
  lemma DotlessLabelsAreTheirPieces(labels: seq<Text>)
    requires AllDotless(labels) && forall l :: l in labels ==> l != []
    ensures (forall p :: p in Pieces(NameOf(labels)) ==> |p| <= 63) <==> (forall l :: l in labels ==> |l| <= 63)
  {
    hide AllDotless, NameOf;
    PiecesOfDotless(labels);
    var lower := LowerAll(labels);
    hide LowerAll;
    assert forall i :: 0 <= i < |labels| ==> |lower[i]| == |labels[i]|;
    forall p | p in lower && (forall l :: l in labels ==> |l| <= 63)
      ensures |p| <= 63
    {
      var i :| 0 <= i < |lower| && lower[i] == p;
      assert labels[i] in labels;
    }
    forall l | l in labels && (forall p :: p in lower ==> |p| <= 63)
      ensures |l| <= 63
    {
      var i :| 0 <= i < |labels| && labels[i] == l;
      assert lower[i] in lower;
    }
  }

  /**
    The rebuilt question asks for the labels, type and class of the response exactly
    when no label has a dot in it. It can be echoed when the pieces that end up in
    its name, those before the first empty one, are as short as labels must be.
   */
  lemma RebuiltQuestionReadsBack(response: Text, q: Text, end: nat)
    requires HasQuestion(response) && IsRebuilt(response, q, end)
    ensures SameQuestion(response, q) <==> AllDotless(ReadLabels(response, HEADER, 0).value.labels)
    ensures var pieces := RebuiltPieces(QuestionOf(response).value.name);
            Echoable(q) <==> forall p :: p in pieces[..Proper(pieces)] ==> |p| <= 63
  {
    hide ReadLabels, Lower, LowerAll, AllDotless, NameOf, RebuiltPieces, Proper, IsQuestionOnly, Pieces;
    var labels, at := ReadLabels(response, HEADER, 0).value.labels, QuestionEnd(response).value;
    var pieces, tail := RebuiltPieces(NameOf(labels)), response[at..at + 4];
    RebuiltPiecesAreShort(response);
    RebuiltPiecesAreDotless(NameOf(labels));
    ReadingEndsInside(response, HEADER, 0);
    if AllDotless(labels) {
      PlainNameHasNoTrailingDot(labels);
    }
    PiecesAskForLabels(q, pieces, end, tail, labels);
    QuestionOnlyReads(q, pieces, end, tail);
    DotlessPrefix(pieces, Proper(pieces));
    DotlessLabelsAreTheirPieces(pieces[..Proper(pieces)]);
    QuestionOnlyIsLong(q, pieces, end, tail);
  }

  lemma QuestionOnlyIsLong(q: Text, pieces: seq<Text>, end: nat, tail: Text)
    requires IsQuestionOnly(q, pieces, end, tail)
    ensures |q| >= HEADER
  {
  }

  lemma RebuiltPiecesAreDotless(name: Text)
    ensures AllDotless(RebuiltPieces(name))
  {
    PiecesHaveNoSeparators(TrimDot(name), DOT);
  }

  /** As dotted text, with no empty piece, it asks for the same name without a trailing dot. */
  lemma RebuiltTextReadsBack(response: Text, q: Text, end: nat)
    requires HasQuestion(response) && IsRebuilt(response, q, end)
    requires forall p :: p in RebuiltPieces(QuestionOf(response).value.name) ==> p != []
    ensures QuestionOf(q) == Some(Asked(TrimDot(QuestionOf(response).value.name), QuestionOf(response).value.qtype))
  {
    hide ReadLabels, PiecesAt, Lower, NameOf, Split, Join;
    var asked, at := QuestionOf(response).value, QuestionEnd(response).value;
    var name, tail := TrimDot(asked.name), response[at..at + 4];
    RebuiltPiecesAreShort(response);
    TrimmedIsLowercase(ReadLabels(response, HEADER, 0).value.labels);
    NonEmptyPieces(asked.name);
    assert Pieces(name) == RebuiltPieces(asked.name);
    QuestionOnlyReadsBack(q, name, end, tail);
    assert U16(tail, 0) == U16(response, at);
  }

  lemma TrimmedIsLowercase(labels: seq<Text>)
    ensures Lower(TrimDot(NameOf(labels))) == TrimDot(NameOf(labels))
  {
    var s := Join(labels);
    assert forall i :: 0 <= i < |s| ==> NameOf(labels)[i] == LowerByte(s[i]);
    var t := TrimDot(NameOf(labels));
    assert forall i :: 0 <= i < |t| ==> Lower(t)[i] == LowerByte(t[i]) == t[i];
  }

  lemma NonEmptyPieces(name: Text)
    requires forall p :: p in RebuiltPieces(name) ==> p != []
    ensures name != [] ==> TrimDot(name) != []
  {
    if name != [] && TrimDot(name) == [] {
      DotHasAnEmptyPiece(name);
    }
  }

  lemma DotHasAnEmptyPiece(name: Text)
    requires name != [] && TrimDot(name) == []
    ensures [] in RebuiltPieces(name)
  {
    assert Split([], DOT) == [[]];
  }
}
