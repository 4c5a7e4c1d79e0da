/**
  Replies the proxy makes itself (emptyNoErrorResponse in dnswire.go,
  dnsFailureResponse and filterIPv6Hints in dns_prepare.go) and the checks on
  observed answers (dns_observe.go).
 */
module DnsReplies {
  import opened Wrappers
  import opened Lists
  import opened Splitting
  import opened DnsNames
  import opened DnsMessages

  // ---------- the question ----------

  datatype Asked = Asked(name: Text, qtype: nat)

  /** The first question: name in lower case and type. */
  function QuestionOf(msg: Text): Option<Asked> {
    if |msg| < HEADER || U16(msg, 4) < 1 then None
    else
      match ReadLabels(msg, HEADER, 0)
      case None => None
      case Some(r) => if r.end + 2 > |msg| then None else Some(Asked(NameOf(r.labels), U16(msg, r.end)))
  }

  method QuestionInfo(msg: Text) returns (r: Option<Asked>)
    ensures r == QuestionOf(msg)
  {
    hide NameOf, ReadLabels, U16;
    if |msg| < HEADER || U16(msg, 4) < 1 {
      return None;
    }
    var name := ReadName(msg, HEADER);
    if name.NoName? || name.next + 2 > |msg| {
      return None;
    }
    return Some(Asked(name.name, U16(msg, name.next)));
  }

  // ---------- flags ----------

  /** The top bit is set, the others stay. */
  function WithResponseBit(b: Byte): (r: Byte)
    ensures r / 128 == 1 && r % 128 == b % 128
  {
    if b >= 128 then b else (b as int + 128) as Byte
  }

  /** Neither authoritative nor truncated: bits 1 and 2 are cleared, the others stay. */
  function WithoutAaTc(b: Byte): (r: Byte)
    ensures r / 8 == b / 8 && r % 2 == b % 2 && r / 2 % 4 == 0
  {
    (b as int / 8 * 8 + b as int % 2) as Byte
  }

  predicate Truncated(b: Byte) {
    b / 2 % 2 == 1
  }

  /** Header and question of a query as a response: the response bit, no records, everything else kept. */
  predicate IsEmptyReply(query: Text, r: Text) {
    if |query| < HEADER then r == query
    else
      && |r| == |query|
      && r[2] == WithResponseBit(query[2]) && r[3] == 128
      && (forall i :: 6 <= i < HEADER ==> r[i] == 0)
      && (forall i :: 0 <= i < |query| && i != 2 && i != 3 && !(6 <= i < HEADER) ==> r[i] == query[i])
  }

  method EmptyNoErrorResponse(query: Text) returns (r: Text)
    ensures IsEmptyReply(query, r)
  {
    if |query| < HEADER {
      return query;
    }
    var resp := new Byte[|query|];
    for i := 0 to |query|
      invariant forall j :: 0 <= j < i ==> resp[j] == query[j]
    {
      resp[i] := query[i];
    }
    resp[2] := WithResponseBit(resp[2]);
    resp[3] := 128;
    resp[6], resp[7] := 0, 0;
    resp[8], resp[9] := 0, 0;
    resp[10], resp[11] := 0, 0;
    return resp[..];
  }

  // ---------- failure replies ----------

  /** The name in the question can be echoed: it is there, and no piece is longer than a label may be. */
  predicate Echoable(query: Text) {
    && |query| >= HEADER
    && match ReadLabels(query, HEADER, 0)
       case None => false
       case Some(r) => r.end + 4 <= |query| && forall p :: p in Pieces(NameOf(r.labels)) ==> |p| <= 63
  }

  function EchoedName(query: Text): Text
    requires Echoable(query)
  {
    NameOf(ReadLabels(query, HEADER, 0).value.labels)
  }

  /** Type and class of the question. */
  function EchoedType(query: Text): Text
    requires Echoable(query)
  {
    var end := ReadLabels(query, HEADER, 0).value.end;
    query[end..end + 4]
  }

  /** A message of one question and nothing else. */
  predicate IsQuestionOnly(r: Text, pieces: seq<Text>, end: nat, tail: Text) {
    && HEADER <= end && |r| == end + 1 + |tail|
    && r[4] == 0 && r[5] == 1 && (forall i :: 6 <= i < HEADER ==> r[i] == 0)
    && PiecesAt(r, HEADER, pieces, end) && r[end] == 0 && r[end + 1..] == tail
  }

  /** The reply echoes the question of the query and carries this code. */
  ghost predicate IsFailureReply(query: Text, r: Text, code: Byte)
    requires Echoable(query)
  {
    && (exists end :: IsQuestionOnly(r, Pieces(EchoedName(query)), end, EchoedType(query)))
    && r[0..2] == query[0..2]
    && r[2] == WithoutAaTc(WithResponseBit(query[2])) && r[3] == code
  }

  /** Bytes before a position do not matter to what is written from there. */
  lemma {:induction false} PiecesElsewhere(a: Text, b: Text, pos: nat, pieces: seq<Text>, end: nat)
    requires PiecesAt(a, pos, pieces, end)
    requires |a| == |b| && forall i :: pos <= i < |a| ==> a[i] == b[i]
    ensures PiecesAt(b, pos, pieces, end)
    decreases |pieces|
  {
    if pieces != [] {
      var n := pos + 1 + |pieces[0]|;
      assert a[pos + 1..n] == b[pos + 1..n];
      PiecesElsewhere(a, b, n, pieces[1..], end);
    }
  }

  method AppendPieces(header: Text, pieces: seq<Text>) returns (out: Text)
    requires |header| == HEADER && forall p :: p in pieces ==> |p| <= MAX_LABEL
    ensures HEADER <= |out| && out[..HEADER] == header && PiecesAt(out, HEADER, pieces, |out|)
  {
    hide PiecesAt;
    out := header;
    NothingWritten(out, HEADER);
    for i := 0 to |pieces|
      invariant HEADER <= |out| && out[..HEADER] == header
      invariant PiecesAt(out, HEADER, pieces[..i], |out|)
    {
      assert pieces[..i + 1] == pieces[..i] + [pieces[i]];
      PieceIsAppended(out, HEADER, pieces[..i], pieces[i]);
      ghost var before := out;
      out := out + [|pieces[i]| as Byte] + pieces[i];
      assert out[..HEADER] == before[..HEADER];
    }
    assert pieces[..|pieces|] == pieces;
  }

  lemma NothingWritten(msg: Text, pos: nat)
    ensures PiecesAt(msg, pos, [], pos)
  {
  }

  method IsEchoable(pieces: seq<Text>) returns (ok: bool)
    ensures ok <==> forall p :: p in pieces ==> |p| <= 63
  {
    for i := 0 to |pieces|
      invariant forall p :: p in pieces[..i] ==> |p| <= 63
    {
      if |pieces[i]| > 63 {
        return false;
      }
      assert pieces[..i + 1] == pieces[..i] + [pieces[i]];
    }
    assert pieces[..|pieces|] == pieces;
    return true;
  }

  method DnsFailureResponse(query: Text) returns (r: Option<Text>)
    ensures r.Some? <==> Echoable(query)
    ensures r.Some? ==> IsFailureReply(query, r.value, 130)
  {
    hide NameOf, ReadLabels, Pieces, PiecesAt, IsEmptyReply, WithResponseBit, WithoutAaTc;
    if |query| < HEADER {
      return None;
    }
    var name := ReadName(query, HEADER);
    if name.NoName? || name.next + 4 > |query| {
      return None;
    }
    var pieces := Pieces(name.name);
    var ok := IsEchoable(pieces);
    if !ok {
      return None;
    }
    var header := query[..HEADER][4 := 0][5 := 1];
    var question := AppendPieces(header, pieces);
    var end := |question|;
    var tail := query[name.next..name.next + 4];
    PiecesStay(question, [0] + tail, HEADER, pieces, end);
    question := question + ([0] + tail);
    HeaderStays(header, question, end, tail);
    var response := EmptyNoErrorResponse(question);
    ReplyKeepsQuestion(question, response, pieces, end, tail);
    EmptyReplyFlags(question, response);
    var reply := response[2 := WithoutAaTc(response[2])][3 := 130];
    FlagsKeepQuestion(response, reply, pieces, end, tail);
    hide IsQuestionOnly;
    assert reply[0..2] == query[0..2];
    assert IsQuestionOnly(reply, Pieces(EchoedName(query)), end, EchoedType(query));
    return Some(reply);
  }

  lemma HeaderStays(header: Text, question: Text, end: nat, tail: Text)
    requires |header| == HEADER <= end && |question| == end + 1 + |tail| && question[..HEADER] == header
    ensures forall i :: 0 <= i < HEADER ==> question[i] == header[i]
  {
    assert forall i :: 0 <= i < HEADER ==> question[i] == question[..HEADER][i];
  }

  lemma EmptyReplyFlags(query: Text, r: Text)
    requires |query| >= HEADER && IsEmptyReply(query, r)
    ensures |r| == |query| && r[0] == query[0] && r[1] == query[1] && r[2] == WithResponseBit(query[2]) && r[3] == 128
  {
  }

  lemma ReplyKeepsQuestion(question: Text, r: Text, pieces: seq<Text>, end: nat, tail: Text)
    requires HEADER <= end && |question| == end + 1 + |tail| && question[4] == 0 && question[5] == 1
    requires PiecesAt(question, HEADER, pieces, end) && question[end] == 0 && question[end + 1..] == tail
    requires IsEmptyReply(question, r)
    ensures IsQuestionOnly(r, pieces, end, tail)
  {
    hide WithResponseBit;
    PiecesElsewhere(question, r, HEADER, pieces, end);
    hide PiecesAt;
    assert r[end + 1..] == question[end + 1..];
  }

  lemma FlagsKeepQuestion(a: Text, b: Text, pieces: seq<Text>, end: nat, tail: Text)
    requires IsQuestionOnly(a, pieces, end, tail)
    requires |a| == |b| && forall i :: 4 <= i < |a| ==> a[i] == b[i]
    ensures IsQuestionOnly(b, pieces, end, tail)
  {
    PiecesElsewhere(a, b, HEADER, pieces, end);
    hide PiecesAt;
    assert b[end + 1..] == a[end + 1..];
  }

  /** A message of one question and nothing else hands out no address. */
  lemma QuestionOnlyHasNoAddresses(r: Text, pieces: seq<Text>, end: nat, tail: Text)
    requires IsQuestionOnly(r, pieces, end, tail)
    ensures AnswerAddresses(r) == [] && MessageAddresses(r) == []
  {
    hide PiecesAt, ReadLabels, SkipQuestions, ReadRecord;
    assert U16(r, 6) == 0 && RecordCount(r) == 0;
  }

  /** The name of a question-only message reads back exactly when no piece of it is empty. */
  lemma QuestionOnlyReadsBack(r: Text, name: Text, end: nat, tail: Text)
    requires name == Lower(name) && forall p :: p in Pieces(name) ==> |p| <= MAX_LABEL
    requires IsQuestionOnly(r, Pieces(name), end, tail) && |tail| == 4
    ensures QuestionOf(r).Some?
    ensures QuestionOf(r).value.name == name <==> forall p :: p in Pieces(name) ==> p != []
    ensures QuestionOf(r).value.name == name ==> QuestionOf(r).value.qtype == U16(tail, 0)
  {
    hide PiecesAt, ReadLabels, Pieces, NameOf;
    NameIsReadBack(r, HEADER, name, end);
    assert r[end + 1] == r[end + 1..][0] && r[end + 2] == r[end + 1..][1];
  }

  lemma NamesAreLowercase(labels: seq<Text>)
    ensures Lower(NameOf(labels)) == NameOf(labels)
  {
    LowerKeepsLowercase(Join(labels));
  }

  lemma EchoedNameIsLowercase(query: Text)
    requires Echoable(query)
    ensures Lower(EchoedName(query)) == EchoedName(query) && |EchoedType(query)| == 4
    ensures forall p :: p in Pieces(EchoedName(query)) ==> |p| <= 63
  {
    hide ReadLabels, Pieces, Lower, NameOf;
    NamesAreLowercase(ReadLabels(query, HEADER, 0).value.labels);
  }

  // ---------- the same question ----------

  /** Both messages ask for the same labels, upper and lower case alike, and the same type and class. */
  predicate SameQuestion(a: Text, b: Text) {
    match (ReadLabels(a, HEADER, 0), ReadLabels(b, HEADER, 0))
    case (Some(x), Some(y)) =>
      && LowerAll(x.labels) == LowerAll(y.labels)
      && x.end + 4 <= |a| && y.end + 4 <= |b| && a[x.end..x.end + 4] == b[y.end..y.end + 4]
    case _ => false
  }

  lemma DotlessPrefix(pieces: seq<Text>, n: nat)
    requires AllDotless(pieces) && n <= |pieces|
    ensures AllDotless(pieces[..n])
  {
    assert forall p :: p in pieces[..n] ==> p in pieces;
  }

  lemma QuestionOnlyReads(r: Text, pieces: seq<Text>, end: nat, tail: Text)
    requires IsQuestionOnly(r, pieces, end, tail) && |tail| == 4
    requires forall p :: p in pieces ==> |p| <= MAX_LABEL
    ensures var rd := ReadLabels(r, HEADER, 0);
            && rd.Some? && rd.value.end + 4 <= |r| && rd.value.labels == pieces[..Proper(pieces)]
            && (Proper(pieces) == |pieces| ==> r[rd.value.end..rd.value.end + 4] == tail)
  {
    hide PiecesAt, ReadLabels, Proper;
    WrittenPiecesAreRead(r, HEADER, pieces, end, 0);
    assert r[end + 1..end + 1 + 4] == r[end + 1..];
  }

  lemma NothingEndsTheName(pieces: seq<Text>)
    requires forall p :: p in pieces ==> p != []
    ensures Proper(pieces) == |pieces| && pieces[..Proper(pieces)] == pieces
  {
    var n := Proper(pieces);
    assert forall i :: 0 <= i < |pieces| ==> pieces[i] in pieces;
  }

  /** Dotless pieces end up as the labels they stand for exactly when no label has a dot in it. */
  lemma ReadPiecesAreTheLabels(pieces: seq<Text>, labels: seq<Text>)
    requires AllDotless(pieces)
    requires AllDotless(labels) ==> pieces == LowerAll(labels) && forall p :: p in pieces ==> p != []
    ensures LowerAll(pieces[..Proper(pieces)]) == LowerAll(labels) <==> AllDotless(labels)
    ensures AllDotless(labels) ==> Proper(pieces) == |pieces|
  {
    hide LowerAll, AllDotless, Proper;
    var n := Proper(pieces);
    DotlessPrefix(pieces, n);
    LowerAllKeepsDots(labels);
    LowerAllKeepsDots(pieces[..n]);
    if AllDotless(labels) {
      NothingEndsTheName(pieces);
    }
  }

  /**
    A question written from dotless pieces asks what these labels ask exactly
    when no label has a dot in it, provided that the pieces are then the labels.
   */
  lemma PiecesAskForLabels(r: Text, pieces: seq<Text>, end: nat, tail: Text, labels: seq<Text>)
    requires IsQuestionOnly(r, pieces, end, tail) && |tail| == 4
    requires AllDotless(pieces) && forall p :: p in pieces ==> |p| <= MAX_LABEL
    requires AllDotless(labels) ==> pieces == LowerAll(labels) && forall p :: p in pieces ==> p != []
    ensures var rd := ReadLabels(r, HEADER, 0);
            && rd.Some? && rd.value.end + 4 <= |r|
            && (LowerAll(rd.value.labels) == LowerAll(labels) && r[rd.value.end..rd.value.end + 4] == tail <==> AllDotless(labels))
  {
    hide IsQuestionOnly, ReadLabels, LowerAll, AllDotless, Proper;
    QuestionOnlyReads(r, pieces, end, tail);
    ReadPiecesAreTheLabels(pieces, labels);
  }

  /**
    A failure reply has no addresses in any section, and it asks for the very
    labels, type and class of the query exactly when no label has a dot in it.
   */
  lemma FailureReplyEchoesTheQuestion(query: Text, r: Text, code: Byte)
    requires Echoable(query) && IsFailureReply(query, r, code)
    ensures MessageAddresses(r) == []
    ensures SameQuestion(query, r) <==> AllDotless(ReadLabels(query, HEADER, 0).value.labels)
  {
    hide IsQuestionOnly, Pieces, MessageAddresses, U16, Lower, LowerAll, AllDotless, WithoutAaTc, WithResponseBit, ReadLabels, NameOf;
    var labels, name, tail := ReadLabels(query, HEADER, 0).value.labels, EchoedName(query), EchoedType(query);
    var end :| IsQuestionOnly(r, Pieces(name), end, tail);
    EchoedNameIsLowercase(query);
    QuestionOnlyHasNoAddresses(r, Pieces(name), end, tail);
    PiecesAreDotless(name);
    ReadingEndsInside(query, HEADER, 0);
    if AllDotless(labels) {
      PiecesOfDotless(labels);
    }
    PiecesAskForLabels(r, Pieces(name), end, tail, labels);
  }

  lemma PiecesAreDotless(name: Text)
    ensures AllDotless(Pieces(name))
  {
    PiecesHaveNoSeparators(name, DOT);
  }

  /** As dotted text the name reads back exactly when no piece of it is empty. */
  lemma FailureReplyEchoesTheText(query: Text, r: Text, code: Byte)
    requires Echoable(query) && IsFailureReply(query, r, code)
    ensures QuestionOf(r).Some?
    ensures QuestionOf(r).value.name == EchoedName(query) <==> forall p :: p in Pieces(EchoedName(query)) ==> p != []
    ensures QuestionOf(r).value.name == EchoedName(query) ==> QuestionOf(r).value.qtype == U16(EchoedType(query), 0)
  {
    hide IsQuestionOnly, Echoable, EchoedName, EchoedType, Pieces, QuestionOf, U16, Lower, WithoutAaTc, WithResponseBit;
    var name, tail := EchoedName(query), EchoedType(query);
    var end :| IsQuestionOnly(r, Pieces(name), end, tail);
    EchoedNameIsLowercase(query);
    QuestionOnlyReadsBack(r, name, end, tail);
  }

  // ---------- IPv6 hints ----------

  predicate ServiceType(qtype: nat) {
    qtype == 64 || qtype == 65
  }

  predicate HasV6(ips: seq<IP>) {
    exists i :: 0 <= i < |ips| && ips[i].V6?
  }

  /** Asked first is the blocker; the matchers only when there is none. */
  function Blocked(blocker: Option<bool>, matchers: Option<bool>): bool {
    if blocker.Some? then blocker.value else matchers.Some? && matchers.value
  }

  /** What leaves the filter: a reply without records when it suppresses, else the response as it came. */
  ghost predicate IsFiltered(blocker: Option<bool>, matchers: Option<bool>, qtype: nat, question: Text, response: Text, r: Text) {
    if ServiceType(qtype) && Blocked(blocker, matchers) && HasV6(AnswerAddresses(response)) && Echoable(question)
    then IsFailureReply(question, r, 128)
    else r == response
  }

  /**
    An IPv6 address of any section leaves the filter exactly when the response has
    one and it is not the case that the type is SVCB or HTTPS, the name blocked, the
    question can be echoed, and an answer record has an IPv6 address.
   */
  lemma SurvivingAddresses(blocker: Option<bool>, matchers: Option<bool>, qtype: nat, question: Text, response: Text, r: Text)
    requires IsFiltered(blocker, matchers, qtype, question, response, r)
    ensures HasV6(MessageAddresses(r)) <==>
            && HasV6(MessageAddresses(response))
            && !(ServiceType(qtype) && Blocked(blocker, matchers) && Echoable(question) && HasV6(AnswerAddresses(response)))
  {
    hide AnswerAddresses, MessageAddresses, Echoable, IsFailureReply, SameQuestion;
    if ServiceType(qtype) && Blocked(blocker, matchers) && Echoable(question) && HasV6(AnswerAddresses(response)) {
      FailureReplyEchoesTheQuestion(question, r, 128);
      AnswersComeFirst(response);
    }
  }

  /** If the question can be echoed, no answer record leaves the filter with an IPv6 address of a blocked name. */
  lemma AnswerHintsAreHeldBack(blocker: Option<bool>, matchers: Option<bool>, qtype: nat, question: Text, response: Text, r: Text)
    requires IsFiltered(blocker, matchers, qtype, question, response, r)
    requires ServiceType(qtype) && Blocked(blocker, matchers) && Echoable(question)
    ensures !HasV6(AnswerAddresses(r))
  {
    hide AnswerAddresses, MessageAddresses, Echoable, IsFailureReply, SameQuestion;
    if HasV6(AnswerAddresses(response)) {
      FailureReplyEchoesTheQuestion(question, r, 128);
      AnswersComeFirst(r);
    }
  }

  method FilterIPv6Hints(blocker: Option<bool>, matchers: Option<bool>, qtype: nat, question: Text, response: Text)
      returns (r: Text)
    ensures IsFiltered(blocker, matchers, qtype, question, response, r)
    ensures HasV6(MessageAddresses(r)) <==>
            && HasV6(MessageAddresses(response))
            && !(ServiceType(qtype) && Blocked(blocker, matchers) && Echoable(question) && HasV6(AnswerAddresses(response)))
  {
    hide AnswerAddresses, MessageAddresses, Dedup, Echoable, IsFailureReply;
    r := response;
    if qtype != TYPE_SVCB && qtype != TYPE_HTTPS {
      return;
    }
    var block := false;
    if blocker.Some? {
      block := blocker.value;
    } else if matchers.Some? {
      block := matchers.value;
    }
    if !block {
      return;
    }
    var ips := AnswerIPs(response);
    DedupKeepsV6(AnswerAddresses(response));
    for i := 0 to |ips|
      invariant forall j :: 0 <= j < i ==> !ips[j].V6?
    {
      if ips[i].V6? {
        var filtered := DnsFailureResponse(question);
        if filtered.None? {
          return;
        }
        r := filtered.value;
        FailureReplyIsLongEnough(question, r, 130);
        r := r[3 := 128];
        FailureReplyWithCode(question, filtered.value, r);
        SurvivingAddresses(blocker, matchers, qtype, question, response, r);
        return;
      }
    }
  }

  lemma DedupKeepsV6(ips: seq<IP>)
    ensures HasV6(Dedup(ips)) <==> HasV6(ips)
  {
    DedupKeepsElements(ips);
    if HasV6(ips) {
      var i :| 0 <= i < |ips| && ips[i].V6?;
      assert ips[i] in Dedup(ips);
    }
    if HasV6(Dedup(ips)) {
      var i :| 0 <= i < |Dedup(ips)| && Dedup(ips)[i].V6?;
      assert Dedup(ips)[i] in ips;
    }
  }

  lemma FailureReplyIsLongEnough(query: Text, r: Text, code: Byte)
    requires Echoable(query) && IsFailureReply(query, r, code)
    ensures |r| > HEADER
  {
  }

  lemma FailureReplyWithCode(query: Text, a: Text, b: Text)
    requires Echoable(query) && IsFailureReply(query, a, 130) && |a| > HEADER && b == a[3 := 128]
    ensures IsFailureReply(query, b, 128)
  {
    hide Echoable, IsQuestionOnly, WithoutAaTc, WithResponseBit, EchoedName, EchoedType, Pieces;
    var end :| IsQuestionOnly(a, Pieces(EchoedName(query)), end, EchoedType(query));
    FlagsKeepQuestion(a, b, Pieces(EchoedName(query)), end, EchoedType(query));
    assert b[0..2] == a[0..2];
  }

  /** A query for the HTTPS record of a one-label name. */
  function HttpsQuestion(name: Text): Text
    requires 1 <= |name| <= MAX_LABEL
  {
    [0, 0, 1, 0, 0, 1, 0, 0, 0, 0, 0, 0] + [|name| as Byte] + name + [0, 0, 65, 0, 1]
  }

  /** A message whose one HTTPS record hints at this address; the counts say whether it is an answer or an additional record. */
  function HintingMessage(answers: Byte, additional: Byte, address: Text): Text {
    [0, 0, 129, 128, 0, 0, 0, answers, 0, 0, 0, additional, 0, 0, 65, 0, 1, 0, 0, 0, 0, 0, 23, 0, 1, 0, 0, 6, 0, 16] + address
  }

  lemma HttpsQuestionReads(name: Text)
    requires 1 <= |name| <= MAX_LABEL
    ensures ReadLabels(HttpsQuestion(name), HEADER, 0) == Some(Reading([name], HEADER + 2 + |name|))
    ensures |HttpsQuestion(name)| == HEADER + |name| + 6
    ensures U16(HttpsQuestion(name), 4) == 1 && U16(HttpsQuestion(name), HEADER + 2 + |name|) == TYPE_HTTPS
  {
    var q, n := HttpsQuestion(name), |name|;
    var tail: Text := [0, 0, 65, 0, 1];
    assert q[HEADER + 1..HEADER + 1 + n] == name;
    assert q[HEADER + 1 + n..] == tail;
    assert q[HEADER + 1 + n] == tail[0] == 0;
    assert q[HEADER + 2 + n] == tail[1] == 0;
    assert q[HEADER + 3 + n] == tail[2] == 65;
    assert At(q, HEADER + 1 + n, Root);
    assert Labels(Label(name, Root)) == [name];
    WrittenNamesAreRead(q, HEADER, Label(name, Root), 0);
  }

  function HintingRecord(address: Text): Resource {
    Resource(Root, Service(true, 1, Root, [Param(6, address)]))
  }

  lemma HintingData(answers: Byte, additional: Byte, address: Text)
    requires |address| == 16
    ensures DataAt(HintingMessage(answers, additional, address), 23, 46, HintingRecord(address).data)
  {
    var r, p := HintingMessage(answers, additional, address), Param(6, address);
    assert At(r, 25, Root);
    assert r[30..46] == address;
    assert WellFormed([p], -1);
    assert ParamsAt(r, 46, 46, []);
    assert ParamsAt(r, 26, 46, [p]);
  }

  lemma HintingResource(answers: Byte, additional: Byte, address: Text)
    requires |address| == 16
    ensures var r := HintingMessage(answers, additional, address);
            && ResourceAt(r, 12, 46, HintingRecord(address)) && |r| == 46
            && U16(r, 4) == 0 && U16(r, 6) == answers && RecordCount(r) == answers as nat + additional as nat
  {
    var r := HintingMessage(answers, additional, address);
    HintingData(answers, additional, address);
    hide DataAt;
    assert At(r, 12, Root);
    assert U16(r, 13) == TYPE_HTTPS && U16(r, 21) == 23;
  }

  /** The hint is written in the message; the answers have it only if it is counted as one. */
  lemma HintingMessageHints(answers: Byte, additional: Byte, address: Text)
    requires |address| == 16 && address[..12] != MAPPED && answers as nat + additional as nat == 1
    ensures var r := HintingMessage(answers, additional, address);
            && MessageAddresses(r) == [V6(address)]
            && AnswerAddresses(r) == if answers == 1 then [V6(address)] else []
  {
    hide HintingMessage, ResourceAt, AnswerAddresses, MessageAddresses, Hints;
    var r, rs := HintingMessage(answers, additional, address), [HintingRecord(address)];
    HintingResource(answers, additional, address);
    assert ResourcesAt(r, 12, [46], rs);
    MessageHandsOutItsAddresses(r, [], 12, [46], rs);
    OneHint(address);
    assert AllAddresses(rs) == Addresses(rs[0].data) + [];
    if answers == 1 {
      ResponseHandsOutItsAddresses(r, [], 12, [46], rs);
    } else {
      NoAnswersNoAddresses(r);
    }
  }

  lemma NoAnswersNoAddresses(msg: Text)
    requires |msg| >= HEADER && U16(msg, 6) == 0
    ensures AnswerAddresses(msg) == []
  {
    hide SkipQuestions, U16;
  }

  lemma OneHint(address: Text)
    requires |address| == 16 && address[..12] != MAPPED
    ensures Hints([Param(6, address)]) == [V6(address)]
  {
    assert address[16 * 0..16 * 0 + 16] == address;
    MappedAddress(address);
    assert Sixteens(address) == [SixteenAt(address, 0)];
    assert Hints([]) == [];
  }

  /**
    The filter does not hold back every IPv6 hint: a blocked HTTPS question with a
    label of 64 bytes is read, but cannot be echoed, and the answer goes out as it came.
   */
  lemma OverlongLabelLetsHintsThrough(name: Text, address: Text, r: Text)
    requires |name| == 64 && forall i :: 0 <= i < 64 ==> name[i] == 97
    requires |address| == 16 && address[..12] != MAPPED
    requires IsFiltered(Some(true), None, TYPE_HTTPS, HttpsQuestion(name), HintingMessage(1, 0, address), r)
    ensures QuestionOf(HttpsQuestion(name)) == Some(Asked(name, TYPE_HTTPS))
    ensures r == HintingMessage(1, 0, address) && HasV6(AnswerAddresses(r))
  {
    hide ReadLabels, U16, AnswerAddresses, MessageAddresses, HttpsQuestion, HintingMessage, NameOf, Pieces, IsFailureReply;
    HttpsQuestionReads(name);
    HintingMessageHints(1, 0, address);
    assert AnswerAddresses(HintingMessage(1, 0, address))[0].V6?;
    NameOfOneLabel(name);
    assert name in Pieces(NameOf([name]));
  }

  /**
    Nor does it look beyond the answers: the same hint in an additional record goes
    out, though the question can be echoed.
   */
  lemma AdditionalRecordsAreNotFiltered(address: Text, r: Text)
    requires |address| == 16 && address[..12] != MAPPED
    requires IsFiltered(Some(true), None, TYPE_HTTPS, HttpsQuestion([97]), HintingMessage(0, 1, address), r)
    ensures Echoable(HttpsQuestion([97]))
    ensures r == HintingMessage(0, 1, address) && HasV6(MessageAddresses(r))
  {
    hide ReadLabels, U16, AnswerAddresses, MessageAddresses, HttpsQuestion, HintingMessage, NameOf, Pieces, IsFailureReply;
    var name: Text := [97];
    HttpsQuestionReads(name);
    HintingMessageHints(0, 1, address);
    assert MessageAddresses(HintingMessage(0, 1, address))[0].V6?;
    NameOfOneLabel(name);
    assert Pieces(NameOf([name])) == [name];
  }

  lemma NameOfOneLabel(name: Text)
    requires forall i :: 0 <= i < |name| ==> name[i] == 97
    ensures NameOf([name]) == name && (name != [] ==> Pieces(name) == [name])
  {
    JoinOne(name);
    SplitWithout(name, DOT);
  }

  /** A query for the single label "a.b", which is echoed as the two labels "a" and "b". */
  lemma InnerDotIsEchoedAsTwoLabels(r: Text)
    requires Echoable(HttpsQuestion([97, 46, 98])) && IsFailureReply(HttpsQuestion([97, 46, 98]), r, 130)
    ensures ReadLabels(HttpsQuestion([97, 46, 98]), HEADER, 0).value.labels == [[97, 46, 98]]
    ensures !SameQuestion(HttpsQuestion([97, 46, 98]), r)
  {
    hide ReadLabels, HttpsQuestion, IsFailureReply, SameQuestion;
    var name: Text := [97, 46, 98];
    HttpsQuestionReads(name);
    assert name[1] == DOT && name in [name];
    FailureReplyEchoesTheQuestion(HttpsQuestion(name), r, 130);
  }

  lemma InnerDotIsEchoable()
    ensures Echoable(HttpsQuestion([97, 46, 98]))
    ensures Pieces(EchoedName(HttpsQuestion([97, 46, 98]))) == [[97], [98]]
  {
    hide ReadLabels, HttpsQuestion;
    var name, a, b: Text := [97, 46, 98], [97], [98];
    HttpsQuestionReads(name);
    JoinOne(name);
    assert Lower(name) == name;
    assert name == a + [DOT] + b;
    SplitWithout(a, DOT);
    SplitWithout(b, DOT);
    SplitAppends(a, b, DOT);
  }

  /** A query for the single label "a.": its echo ends at the empty piece after the dot and names "a". */
  lemma TrailingDotIsNotEchoed(r: Text)
    requires Echoable(HttpsQuestion([97, 46])) && IsFailureReply(HttpsQuestion([97, 46]), r, 130)
    ensures EchoedName(HttpsQuestion([97, 46])) == [97, 46] && QuestionOf(r).Some?
    ensures QuestionOf(r).value.name != EchoedName(HttpsQuestion([97, 46]))
  {
    hide ReadLabels, HttpsQuestion, IsFailureReply, QuestionOf;
    var name, a, b: Text := [97, 46], [97], [];
    HttpsQuestionReads(name);
    JoinOne(name);
    assert Lower(name) == name;
    assert name == a + [DOT] + b;
    SplitWithout(a, DOT);
    SplitWithout(b, DOT);
    SplitAppends(a, b, DOT);
    assert b in Pieces(name);
    FailureReplyEchoesTheText(HttpsQuestion(name), r, 130);
  }

  lemma TrailingDotIsEchoable()
    ensures Echoable(HttpsQuestion([97, 46]))
  {
    hide ReadLabels, HttpsQuestion;
    var name: Text := [97, 46];
    HttpsQuestionReads(name);
    JoinOne(name);
    assert Lower(name) == name;
    PiecesAreShorter(name, DOT);
  }
}
